# dashpool components — a Dafny model

Dashpool is a set of Dash widgets:
- a file-explorer tree;
- a history tree;
- a chat panel that renders a streamed answer while it arrives;
- a graph loader;
- a context provider through which the widgets share data (such as the record being dragged from one widget to another).

Its Python side serialises chat items and streams the answer.

This project models the logic under those widgets and proves what it promises:

- **Explorer tree builder** (`buildExplorerTree`): a worklist of flat records is spliced in place and a map from id to node object is overwritten on every visit. The builder produces the two fixed roots, Home (`h`) and Shared (`s`), then locks the Shared subtree. Node objects are modelled as an arena (`seq<Cell>`) with the map holding indices into it, so the aliasing of the source (children lists holding references, a map entry replaced by a fresh copy) is kept.
- **History tree builder** (`buildHistoryTree`): it groups records by frame in a plain object and returns `Object.values` of it. The model covers JavaScript's property order and the `TypeError` a frame named after an `Object.prototype` member causes.
- **Lookups**: `findTreeViewNode`, `findTreeNode` and the icon table.
- **Explorer edits**: delete, rename, create folder, internal drag re-parenting, the foreign-drop copy, double-click open, selection and the context-menu decision table. The widget is a class over the flat list, the display tree, the selection and an outbox of the `setProps` calls it makes.
- **Chat panel**: the per-chunk merge of the stream (`handleStringResult`), the event queue, the end-of-turn reconciliation, the quick buttons and `toChatMessage`. The panel is a class over the history, the rendered list, `known_ids`, the event queue and an outbox.
- **Loader**: the dotted-path walk (`extractData`), the `multi` selection, the suffix dispatch of `initComponent`, and the loading and error states.
- **Provider**: the shallow merge of `updateSharedData` and the `useDashpoolData` guard.
- **Python serialisers**:
  - `File`, `Photo`, `DashpoolEvent` and `NodeChangeEvent` `to_dict` in `chatutils.py`;
  - `Response.add`, `__ensure_id` and `generate_response` (framing and escaping);
  - the `document_classes` serialisers, each paired with a reader that inverts it.

**Oracles.** `JSON.parse` is the partial function `parse: string -> Option<Json>`. `json.dumps` is `dumps: Json -> string`. `uuid.uuid4()` and `generateUniqueId()` are parameters: `ids: nat -> string`, `freshId`. JSON numbers are `int`.

**Effects.** Every `setTimeout` callback is run at the end of the operation that schedules it, in scheduling order; only the order of effects is kept. Every `setProps` call is appended to the widget's outbox.

The model follows the code as written, including these behaviours:
- The explorer builder has no retry bound. A parent id that names no record makes it loop forever, so `BuildExplorerTree` requires the list to be one it finishes on (`Placeable`). `DanglingNotPlaceable` and `SharedDropDiverges` show that such lists exist.
- The history builder labels each group with the first record's `app`, or `NoApp`. It uses no registry of open frames and emits no empty groups.
- A delete reports once per removed child, each report carrying the filtered flat list. A rename reports once per renamed tree node that has a matching record. Neither sends a single notification per edit.
- The `Photo` of `chatutils.py` falls back to 100 for a falsy width or height. The `Photo` of `document_classes/photo.py` does not (`PhotoClassesDiffer`).

## Model

| member | source | states |
|---|---|---|
| Helper.IconFor | src/ts/helper.tsx:41-47 | an icon exactly for the five type letters `a p r s f`, none for any other type |
| Helper.WithId | src/ts/helper.tsx:84 | the filter keeps only records with the id; it is non-empty iff some record has the id, and then starts with the first such record |
| Helper.FindTreeViewNode | src/ts/helper.tsx:82-90 | `undefined` iff no record has the id; otherwise the record at the first index with that id |
| Helper.FindNodeRecursive | src/ts/helper.tsx:51-67 | the first node with the id in the pre-order of the forest, together with the id of the node whose children hold it |
| Helper.FindTreeNode | src/ts/helper.tsx:49-78 | the pre-order first match over all roots, with `None` as parent for a root |
| ExplorerTree.PlacedFace | src/ts/helper.tsx:126-135 | a built node has key `type-id`, the record's label, icon and data, no children; it is droppable iff the type is `f` and draggable, except straight under Shared where both are false |
| ExplorerTree.VisitFrame | src/ts/helper.tsx:125-163 | one visit adds one node object, changes no earlier one, appends to Home or Shared exactly the records that belong straight under them, and places the record iff its parent is falsy, `h`, in the map or the record itself |
| ExplorerTree.PassShape | src/ts/helper.tsx:123-166 | one sweep creates one node object per worklist record, maps every worklist id, and leaves only worklist records behind |
| ExplorerTree.Sweep | src/ts/helper.tsx:123-166 | the in-place splice loop over the worklist computes exactly the sweep `Pass` (new state and remaining worklist) |
| ExplorerTree.BuildExplorerTree | src/ts/helper.tsx:94-189 | for a list the loop finishes on: exactly two roots, Home (`h`, droppable, not draggable) then Shared (`s`, neither), and every subtree under Shared locked; with unique ids and parents first, the forest the `parent` fields describe (`ParentForest`) |
| ExplorerTree.HomeChildren | src/ts/helper.tsx:141-163 | the children of Home are the nodes of the records going straight under it, in input order |
| ExplorerTree.SharedChildren | src/ts/helper.tsx:151-163 | the children of Shared are the nodes of the type-`s` records without a lookup parent, in input order, locked |
| ExplorerTree.BuiltNodes | src/ts/helper.tsx:126-135 | every node of the result is, children aside, the node some input record produces (locked under Shared) |
| ExplorerTree.PlacedOnce | src/ts/helper.tsx:121-166 | each record leaves the worklist once and adds exactly one reference, to a fresh node object; no node object is referenced twice |
| ExplorerTree.OnePass | src/ts/helper.tsx:123-166 | when every looked-up parent names an earlier record, the first sweep places every record and the loop ends |
| ExplorerTree.ParentsFirstTree | src/ts/helper.tsx:123-150 | with unique ids and parents first, the final arena mirrors the `parent` fields: node `j` is record `j`'s and its children are exactly the records naming it, in order |
| ExplorerTree.ChildrenAfterParents | src/ts/helper.tsx:138-150 | with parents first every child of a record comes after it in the list |
| ExplorerTree.ExplorerTreeMirrors | src/ts/helper.tsx:94-189 | with unique ids and parents first, the returned forest equals `ParentForest`: every record's tree under the node of the record it names, or under Home or Shared, siblings in input order, built from the records alone |
| ExplorerTree.DanglingStays | src/ts/helper.tsx:123-166 | a record whose parent is neither mapped nor a worklist id stays in the worklist after every sweep |
| ExplorerTree.DanglingNotPlaceable | src/ts/helper.tsx:121-166 | a list holding such a record is not `Placeable`, and the record is still in the worklist after any number of sweeps |
| ExplorerTree.OrphanExample | src/ts/helper.tsx:126-150 | a concrete list on which the loop ends but a child attached to a discarded copy of its parent is missing from the result |
| ExplorerTree.SharedKey | src/ts/helper.tsx:172-174 | a locked key always starts with `s` |
| ExplorerTree.LockShared | src/ts/helper.tsx:169-183 | the locked subtree is neither draggable nor droppable anywhere and every key starts with `s` |
| ExplorerTree.LockAll | src/ts/helper.tsx:180-183 | every child of Shared is locked, in the same order |
| ExplorerTree.LockKeepsShape | src/ts/helper.tsx:169-183 | locking changes only keys and flags |
| ExplorerTree.LockIdempotent | src/ts/helper.tsx:169-178 | locking a locked tree changes nothing (a key already starting with `s` is kept) |
| HistoryTree.FrameOf | src/ts/helper.tsx:197 | the record's frame when truthy, else `NoFrame` |
| HistoryTree.Frames | src/ts/helper.tsx:196-208 | the frames, each once |
| HistoryTree.FramesMember | src/ts/helper.tsx:196-208 | a frame is listed iff some record has it |
| HistoryTree.Grouped | src/ts/helper.tsx:194-222 | one group per frame, in order of first appearance |
| HistoryTree.GroupedSnocOld | src/ts/helper.tsx:198-221 | a record of a frame already seen extends that group's children by its node and changes nothing else |
| HistoryTree.GroupedSnocNew | src/ts/helper.tsx:198-221 | a record of an unseen frame opens a new group at the end, labelled from that record |
| HistoryTree.GroupedCount | src/ts/helper.tsx:196-222 | the groups hold exactly as many nodes as there are records |
| HistoryTree.RecordGrouped | src/ts/helper.tsx:196-222 | every record's node sits in the group named after its frame, and group ids are distinct |
| HistoryTree.LabelFirst | src/ts/helper.tsx:202 | a group's label is the `app` (or `NoApp`) of the first record of its frame |
| HistoryTree.Place | src/ts/helper.tsx:197-221 | one step of the loop keeps the groups equal to the reference grouping of the records seen so far |
| HistoryTree.SortByIndex | src/ts/helper.tsx:224 | an ascending permutation of the groups by array index |
| HistoryTree.ObjectValuesOrder | src/ts/helper.tsx:224 | `Object.values` returns a permutation of the groups: those whose frame is an array index first, ascending, then the others in creation order |
| HistoryTree.CreationOrder | src/ts/helper.tsx:224 | without an array-index frame the groups come back in creation order |
| HistoryTree.HistoryPlaces | src/ts/helper.tsx:196-224 | in the returned list every record's node sits in the group of its frame, and there is one group per frame |
| HistoryTree.BuildHistoryTree | src/ts/helper.tsx:193-225 | throws a `TypeError` iff some frame is an `Object.prototype` member name; otherwise returns `Object.values` of the grouping |
| JsonValues.ArrayIndexDecimal | src/ts/components/Loader.tsx:49 | a property name is an array index `n` iff it is the canonical decimal of `n` |
| Explorer.PrunedNoKey | src/ts/components/Explorer.tsx:93-111 | after a delete no node with the deleted key is left below the starting node |
| Explorer.PrunedShrinks | src/ts/components/Explorer.tsx:93-111 | a delete only removes nodes |
| Explorer.PrunedKeeps | src/ts/components/Explorer.tsx:93-111 | the nodes left after a delete (label, data and flags unchanged) and the nodes of the dropped subtrees, each rooted at a node keyed `key`, make up exactly the nodes there were |
| Explorer.TrashedRemoved | src/ts/components/Explorer.tsx:96-105 | one trash report per dropped subtree, carrying its root's id, in order |
| Explorer.TrashedCount | src/ts/components/Explorer.tsx:96-105 | one trash report per removed subtree: at least one iff the key occurs, never more than its occurrences |
| Explorer.PrunedUnchanged | src/ts/components/Explorer.tsx:93-111 | a tree without the key is left as it was |
| Explorer.Without | src/ts/components/Explorer.tsx:91 | the filtered list holds exactly the records with another id, and its length plus the number removed is the original length |
| Explorer.WithoutAppend | src/ts/components/Explorer.tsx:91 | the filter works piece by piece: filtering a concatenation concatenates the filtered parts, so input order is kept |
| Explorer.TrashNotices | src/ts/components/Explorer.tsx:98-104 | one report per removed child: its id moved to `trash`, with the filtered list |
| Explorer.RelabelBare | src/ts/components/Explorer.tsx:127-152 | a rename changes nothing but labels |
| Explorer.RelabelLabels | src/ts/components/Explorer.tsx:127-152 | a rename changes exactly the labels of the nodes with the key |
| Explorer.RenamedFacts | src/ts/components/Explorer.tsx:134-142 | the flat rename touches only labels, sets the label of the first record of each renamed id, and leaves other records alone |
| Explorer.RenameFinds | src/ts/components/Explorer.tsx:136 | each timer finds the same record the original list holds first with its id |
| Explorer.MenuShape | src/ts/components/Explorer.tsx:169-201 | Open iff the key starts `a`/`p`/`r`; Rename, Delete and Share iff it starts with neither `s` nor `h`; New Folder iff `f`/`h`; empty iff it starts with `s` |
| Explorer.DoubleClickOpens | src/ts/components/Explorer.tsx:377-382 | a double click opens the first record with the node's id iff there is one and its type is `a`, `r` or `p` |
| Explorer.DoubleClickInMenu | src/ts/components/Explorer.tsx:377-382 | what a double click opens, the node's context menu also offers to open |
| Explorer.KeyedAs | src/ts/components/Explorer.tsx:387-388 | none iff no record has key `type-id` equal to the value; otherwise the first record with that key |
| Explorer.FolderMatchesRebuild | src/ts/components/Explorer.tsx:252-270 | the folder node shown at once is the node a rebuild makes from the pushed record |
| Explorer.PushPlaceable | src/ts/components/Explorer.tsx:262-270 | pushing a record whose parent is `h` or a listed id keeps the list one the builder finishes on |
| Explorer.DragPayload | src/ts/components/Explorer.tsx:294-302 | no payload iff no record has the id; otherwise the first such record with `parent` set to the widget id |
| Explorer.DragBetweenWidgets | src/ts/components/Explorer.tsx:300-317 | a widget ignores its own drag; any other widget accepts it and pushes the record with a fresh id under the drop target |
| Explorer.SharedDropDiverges | src/ts/components/Explorer.tsx:306-320 | as written a drop onto the Shared root passes the guard, and the pushed copy never leaves the builder's worklist |
| Explorer.DropPlaceable | src/ts/components/Explorer.tsx:306-320 | with the corrected guard an accepted drop keeps the list buildable |
| Explorer.ExplorerWidget.constructor | src/ts/components/Explorer.tsx:61-69 | the display tree is built from the host's list; nothing selected, no menu, no report |
| Explorer.ExplorerWidget.DeleteNode | src/ts/components/Explorer.tsx:88-121 | Home is pruned of the key (`PrunedNoKey`, `PrunedKeeps`: the other nodes survive), Shared untouched, and one trash report per removed child carries the list without the id |
| Explorer.ExplorerWidget.UpdateNodeLabel | src/ts/components/Explorer.tsx:124-164 | Home is relabelled, the matched records renamed, and one report sent per matched node that has a record |
| Explorer.ExplorerWidget.RenameRecords | src/ts/components/Explorer.tsx:134-142 | the rename timers, in order: the flat list renamed and one report per id found |
| Explorer.ExplorerWidget.SetContextMenu | src/ts/components/Explorer.tsx:169-201 | key `s` leaves the menu and returns false; otherwise the menu of the key, shown iff non-empty |
| Explorer.ExplorerWidget.OpenDialog | src/ts/components/Explorer.tsx:211-242 | the rename and new-folder dialogs select the node they act on |
| Explorer.ExplorerWidget.OnNodeDoubleClick | src/ts/components/Explorer.tsx:377-382 | an `open` event for the record a double click opens, else nothing |
| Explorer.ExplorerWidget.SelectionChange | src/ts/components/Explorer.tsx:386-389 | selects the first record keyed as the value, if any |
| Explorer.ExplorerWidget.HandleCreateFolder | src/ts/components/Explorer.tsx:248-279 | the folder node is appended under the selected node, the record `{parent, f, id, label}` is pushed, and one report sent |
| Explorer.ExplorerWidget.OnDragDrop | src/ts/components/Explorer.tsx:392-407 | the tree becomes the widget's value, and the moved record's parent becomes its enclosing node as `findTreeNode` reports, then one report |
| Explorer.ExplorerWidget.HandleDrop | src/ts/components/Explorer.tsx:304-343 | an accepted drop pushes the copy, rebuilds the tree from the list and reports the new record; a refused one changes nothing; the list stays buildable |
| Chat.ToChatMessage | src/ts/components/Chat.tsx:72-123 | left iff assistant, photo or file; text kind iff assistant or user; photo and file items iff those roles; the content is the message's; a photo or file carries the message's `data`, or `{size: 0, url: ""}` without one |
| Chat.LastNonSpace | src/ts/components/Chat.tsx:166 | the last non-white-space index, or none when the text is all white space |
| Chat.StripTrailingComma | src/ts/components/Chat.tsx:166 | a trailing comma and the white space after it are removed when present; otherwise the text is unchanged |
| Chat.Repair | src/ts/components/Chat.tsx:169-174 | a line with `assistant` ends with `"}`; only `"}` is ever appended, and never to a line already ending so or without `assistant` |
| Chat.Candidates | src/ts/components/Chat.tsx:156 | with split the candidates are line-break free and join back to the buffer at line breaks; without, the buffer is the only candidate |
| Chat.ReplaceLastFacts | src/ts/components/Chat.tsx:186-194 | a repeated id overwrites the last bubble whatever its id, keeping the length |
| Chat.AbsorbedAppend | src/ts/components/Chat.tsx:160-218 | candidates are processed in order, one after another |
| Chat.FailedCandidate | src/ts/components/Chat.tsx:177-215 | a candidate that fails to parse changes nothing and the later ones still count |
| Chat.AbsorbedOncePerId | src/ts/components/Chat.tsx:179-213 | recorded ids stay distinct, the lists only grow, and events are queued at most once per new id |
| Chat.RecordLength | src/ts/components/Chat.tsx:179-196 | a record keeps the list length iff its id is known and adds one bubble iff not |
| Chat.FirstNull | src/ts/components/Chat.tsx:328-330 | the index of the first `null` item, where `message.role` throws |
| Chat.FirstRender | src/ts/components/Chat.tsx:136 | the first render fails iff some message is `null`; otherwise every message rendered, in order |
| Chat.ErrorEntries | src/ts/components/Chat.tsx:352-365 | one empty `error` entry per known id, then the apology |
| Chat.ReconcileSnoc | src/ts/components/Chat.tsx:328-350 | each item adds its history entry, its fresh bubble and its late event |
| Chat.CleanFinish | src/ts/components/Chat.tsx:328-350 | no more fresh bubbles than assistant entries; all of them when nothing was seen while streaming |
| Chat.FailedFinish | src/ts/components/Chat.tsx:351-366 | an unparsable buffer adds the error entries and the apology to the history and renders nothing |
| Chat.Reconcile | src/ts/components/Chat.tsx:328-350 | the loop walks up to the first `null` and collects exactly the history entries, fresh bubbles and late events of those items |
| Chat.ChatPanel.constructor | src/ts/components/Chat.tsx:134-136 | for messages the first render accepts: the history is the given messages, the bubbles `FirstRender`'s; input enabled, queue empty |
| Chat.AbsorbLine | src/ts/components/Chat.tsx:163-214 | one candidate's pass: the state becomes `Absorb` of the prepared, parsed line, i.e. a new record id appends, a known one replaces the last bubble, an event is queued once per id |
| Chat.ChatPanel.HandleStringResult | src/ts/components/Chat.tsx:154-220 | the state is the fold of the prepared candidates into the rendered list, `known_ids` and the queue |
| Chat.ChatPanel.FireEvents | src/ts/components/Chat.tsx:59-65 | the queued events go out in order and the queue is emptied |
| Chat.ChatPanel.StartTurn | src/ts/components/Chat.tsx:227-259 | the user's message joins history and list; buffer, ids and queue reset; input disabled |
| Chat.ChatPanel.ReceiveChunk | src/ts/components/Chat.tsx:286-314 | the buffer grows by the chunk; when the throttle lets it, the lines are merged and the queue fired, then the whole buffer is merged |
| Chat.ChatPanel.StreamFailed | src/ts/components/Chat.tsx:315-323 | the apology joins history and list and input is enabled |
| Chat.ChatPanel.FinishTurn | src/ts/components/Chat.tsx:325-372 | history, list and events follow the end-of-turn reconciliation; the queue is fired and input enabled |
| Chat.ChatPanel.HandleQuickButton | src/ts/components/Chat.tsx:378-421 | while enabled, `clearall`/`reportproblem` empty both lists and `removelast` drops the last of each; otherwise nothing changes |
| Loader.OwnProperty | src/ts/components/Loader.tsx:49-50 | what `hasOwnProperty` finds when the method is not shadowed: own keys of an object; `length` and in-range decimal indices of an array; nothing on a boolean, number or null |
| Loader.ExtractData | src/ts/components/Loader.tsx:45-58 | the loop computes the walk along the `.`-separated segments, throwing on null, undefined or an object owning `hasOwnProperty` |
| Loader.WalkAppend | src/ts/components/Loader.tsx:48-56 | a walk whose first segments are found continues from where they lead |
| Loader.MissingStops | src/ts/components/Loader.tsx:51-55 | a missing segment yields `null`, whatever follows; an object owning `hasOwnProperty` throws instead |
| Loader.WalkNest | src/ts/components/Loader.tsx:45-58 | a value stored under a dotted path is what the walk along it finds iff no segment is `hasOwnProperty`; otherwise the walk throws |
| Loader.Select | src/ts/components/Loader.tsx:89 | the whole answer unless `multi` is truthy; `in` on a primitive or null throws |
| Loader.SuffixesDiffer | src/ts/components/Loader.tsx:64-73 | no output ends in both `figure` and `defParams` |
| Loader.InitComponent | src/ts/components/Loader.tsx:62-76 | core graph iff `figure`, express graph iff `defParams`, nothing otherwise; the first `_dash-update-component` of the url becomes `plotApi` |
| Loader.Loaded | src/ts/components/Loader.tsx:86-105 | a component iff an answer arrived and its selection did not throw, and then the component for the selected part; any failure ends with the fixed message |
| Loader.ShadowedAnswerFails | src/ts/components/Loader.tsx:49 | an answer whose `response` owns `hasOwnProperty` ends in the fixed message even though `figure` is present |
| Loader.LoaderWidget.constructor | src/ts/components/Loader.tsx:38-40 | loading, no component, no error: the spinner |
| Loader.LoaderWidget.View | src/ts/components/Loader.tsx:108-118 | the spinner exactly while loading |
| Loader.LoaderWidget.Load | src/ts/components/Loader.tsx:79-106 | loading ends; success sets the component and clears the error; failure sets the fixed message and keeps the old component |
| Provider.Spread | src/ts/components/DashpoolProvider.tsx:50 | new keys win, every other key keeps its value, and no other key appears |
| Provider.SpreadIdempotent | src/ts/components/DashpoolProvider.tsx:49-51 | merging the same data twice is merging it once |
| Provider.SpreadTwice | src/ts/components/DashpoolProvider.tsx:49-51 | two merges are one merge of the second over the first |
| Provider.UseDashpoolData | src/ts/components/DashpoolProvider.tsx:61-67 | fails with the fixed message iff there is no provider, else the context |
| Provider.ChatFallbackUnreachable | src/ts/components/Chat.tsx:132 | as written, outside a provider the chat panel throws instead of using the empty fallback |
| Provider.ChatSharedData | src/ts/components/Chat.tsx:132 | the intended lookup: empty outside a provider, the context's data inside |
| Provider.DashpoolProvider.constructor | src/ts/components/DashpoolProvider.tsx:47 | the shared data starts empty |
| Provider.DashpoolProvider.Provide | src/ts/components/DashpoolProvider.tsx:54-58 | the context carries the data of the last render |
| Provider.DashpoolProvider.Render | src/ts/components/DashpoolProvider.tsx:54-58 | a render shows the current state |
| Provider.DashpoolProvider.UpdateSharedData | src/ts/components/DashpoolProvider.tsx:49-51 | the state becomes the rendered data merged with the new entries |
| Provider.UpdateAndRender | src/ts/components/DashpoolProvider.tsx:49-58 | after an update and a render the widgets see the merge |
| ChatUtils.FileShown | dashpool_components_base/chatutils.py:8-15 | a file reaches the chat panel as a left file bubble with its url, its size falling back to `File` |
| ChatUtils.PhotoShown | dashpool_components_base/chatutils.py:23-31 | a photo reaches the panel as a photo bubble with its url and truthy width and height |
| ChatUtils.EventsQueued | dashpool_components_base/chatutils.py:38-55 | both events carry role, id and content and are queued by the panel as the matching event |
| ChatUtils.EnsureId | dashpool_components_base/chatutils.py:71-74 | a dict without `id` gets the fresh one and keeps every other key; a dict with one is unchanged; `in` on a non-container fails |
| ChatUtils.EnsureIdStable | dashpool_components_base/chatutils.py:71-74 | an id once ensured is never replaced |
| ChatUtils.EscapeAsWrittenKeeps | dashpool_components_base/chatutils.py:111 | as written, text without line breaks or quotes is sent unchanged |
| ChatUtils.ApostropheBreaksJson | dashpool_components_base/chatutils.py:111 | as written, `'` becomes `\'`, which no JSON parser accepts |
| ChatUtils.BackslashChangesText | dashpool_components_base/chatutils.py:111 | as written, the text `\n` arrives as a line break |
| ChatUtils.Escape | dashpool_components_base/chatutils.py:111 | the escaped text holds no line break |
| ChatUtils.EscapeRoundTrip | dashpool_components_base/chatutils.py:111 | escaped text decodes back to the original |
| ChatUtils.FrameOneLine | dashpool_components_base/chatutils.py:108-113 | a generator element is one line |
| ChatUtils.EscapeAllRoundTrip | dashpool_components_base/chatutils.py:109-112 | a frame's content decodes to the concatenated generator text |
| ChatUtils.StreamLines | dashpool_components_base/chatutils.py:94-114 | each element is on its own line, followed by a comma unless it is last, between `[` and `]` lines |
| ChatUtils.TrailingCommaAsWritten | dashpool_components_base/chatutils.py:104-114 | as written and without generators, the stream ends in `,\n]` iff there is a response |
| ChatUtils.AdjacentFramesAsWritten | dashpool_components_base/chatutils.py:106-113 | as written, for any responses and at least two generators, the last two elements are separated only by a line break, with no comma |
| ChatUtils.Sent | dashpool_components_base/chatutils.py:95-104 | the responses sent before the first whose id cannot be ensured |
| ChatUtils.CompleteStreamLines | dashpool_components_base/chatutils.py:89-114 | a complete stream has one line per response and per generator plus the two bracket lines |
| ChatUtils.RestampStable | dashpool_components_base/chatutils.py:101 | a second send keeps the ids stamped by the first |
| ChatUtils.FrameChunks | dashpool_components_base/chatutils.py:107-113 | the chunks of a generator element, with the corrected escaping (`Escape`): opening, one per item, closing, concatenating to the frame |
| ChatUtils.SendResponses | dashpool_components_base/chatutils.py:95-104 | the responses part with the corrected commas (between elements only): the stamped dicts dumped in order, stopping at the first failure, the dicts keeping their ids |
| ChatUtils.SendGenerators | dashpool_components_base/chatutils.py:106-113 | the generators part with the corrected commas and escaping: one element per generator after the responses |
| ChatUtils.Response.constructor | dashpool_components_base/chatutils.py:67-68 | no responses and no generators |
| ChatUtils.Response.Add | dashpool_components_base/chatutils.py:82-87 | a callable joins the generators, anything else the responses, in order |
| ChatUtils.Response.GenerateResponse | dashpool_components_base/chatutils.py:89-114 | the chunks concatenate to the stream text; complete iff every id could be ensured; the dicts keep their ids |
| Documents.EventRoundTrip | dashpool_components_base/document_classes/misc.py:1-28 | an event's dict reads back as the same event: kind, id, data as `content`, ref |
| Documents.EventDefaultRef | dashpool_components_base/document_classes/misc.py:2-17 | an event made without a ref is sent with `ref: null` |
| Documents.EventDictQueued | dashpool_components_base/document_classes/misc.py:7-28 | the chat panel queues an event's dict as that event with the data as content |
| Documents.PhotoRoundTrip | dashpool_components_base/document_classes/photo.py:1-21 | a photo's dict reads back as the same photo and has size `""` |
| Documents.PhotoDefaults | dashpool_components_base/document_classes/photo.py:2-7 | a photo from a url alone is hidden, with null width, height and ref |
| Documents.PhotoShownAsGiven | dashpool_components_base/document_classes/photo.py:18-19 | the panel shows the width and height as given, without fallback |
| Documents.PhotoClassesDiffer | dashpool_components_base/document_classes/photo.py:18 | this photo sends null width where the `chatutils` photo sends 100 |
| Documents.ReferenceRoundTrip | dashpool_components_base/document_classes/reference.py:1-14 | a reference's dict reads back as the same reference; always hidden; size `""` |
| Documents.ReferenceDefaults | dashpool_components_base/document_classes/reference.py:2 | empty markdown and null ref and image by default |
| Documents.Checked | dashpool_components_base/document_classes/pdf.py:51-52 | the highlights when every argument is a `PdfHighlight`, else none |
| Documents.NewPdf | dashpool_components_base/document_classes/pdf.py:43-52 | fails iff a highlight is not a `PdfHighlight`; otherwise keeps url, name, ref and highlights, hidden |
| Documents.RectDicts | dashpool_components_base/document_classes/pdf.py:63-72 | one dict per rectangle, in order |
| Documents.HighlightsToDict | dashpool_components_base/document_classes/pdf.py:54-94 | one dict per highlight in order iff all are complete; otherwise the error of the first incomplete one |
| Documents.RectsRoundTrip | dashpool_components_base/document_classes/pdf.py:63-72 | the rectangles' dicts read back as the same rectangles in order |
| Documents.HighlightsRoundTrip | dashpool_components_base/document_classes/pdf.py:54-94 | complete highlights read back from their dicts, in order |
| Documents.PdfDictFails | dashpool_components_base/document_classes/pdf.py:96-107 | `to_dict` fails iff a highlight is incomplete |
| Documents.PdfRoundTrip | dashpool_components_base/document_classes/pdf.py:96-107 | a PDF's dict reads back as the same PDF and has size `""` |
| Documents.PdfDefaults | dashpool_components_base/document_classes/pdf.py:43-107 | a PDF from a url alone is hidden with no highlights, null name and ref |

## Left out

- Rendering, JSX, dialogs, Markdown, the context menu's display, and the DOM. This includes `findTargetElement`, and the part of `handleDragStart` that finds the node under the mouse cursor: `DragPayload` receives that node's id.
- Timers and clocks: the 100 ms and 1000 ms `setTimeout` delays and the 50 ms throttle. `ReceiveChunk` takes whether the throttle lets a pass through as a parameter. Timer callbacks run at the end of the operation that schedules them.
- The transient key highlight that `handleDrop` sets and clears (`selectedKey`).
- `generateUniqueId`, `uuid.uuid4()` and the timestamp of `newDashpoolEvent` are parameters or are dropped. An `OpenEvent` carries only the record.
- The network: `fetch`, the streamed body reader, `TextDecoder`, the report-problem request, Flask's `response_class` and `Response.__init__`. `LoaderWidget.Load` receives the decoded answer, or none when the request or decoding failed.
- `JSON.parse` and `json.dumps`: oracles. `ChatUtils.Decode` models only the string-literal part of JSON that the escaping proofs need.
- UTF-16 surrogate pairs in `\u` escapes.
- Floating point: JSON numbers are integers, and PDF coordinates are copied, never computed with.
- React state batching: each operation sees the state left by the previous one.
- `handleRefresh`: it increments a counter and reports it to the host. It has no effect on the list or the tree.
- The drag-and-drop listener registration.
- `History.tsx` (only DOM drag wiring and a refresh counter; its tree logic is `buildHistoryTree`), `Report.tsx`, `index.ts`, `hack_types.js`, `setup.py` and the usage demos.
- Session gating is not part of these components.
- ExplorerTree.BuildExplorerTree: requires a list the loop finishes on. On any other list the source never returns, which `DanglingNotPlaceable` and `SharedDropDiverges` exhibit.
- Helper.IconFor: for an inherited `Object.prototype` name (such as `constructor`) the source's table lookup yields the inherited member, while the model gives no icon.
- Explorer.ExplorerWidget.HandleCreateFolder: the model appends the folder under the first node whose key matches the selected node, in the tree as it is now. The source pushes into the selected object itself, which after a rebuild may be a detached copy, so the display would not change until the host sends the list back. Object identity of the display tree is not modelled.
- Chat.ChatPanel.constructor: requires messages the first render accepts. When a message is `null` the source's first render throws and no panel exists; `FirstRender` models that failure.
- Loader.OwnProperty: on a string, `length` and the indices count characters, whereas JavaScript counts UTF-16 code units. The two agree only on text without surrogate pairs.
- Explorer.ExplorerWidget.DeleteNode: on an empty display tree the source throws before changing anything; the model changes nothing either.
- Explorer.ExplorerWidget.OnDragDrop: when the moved node or its record is not found, the source throws after showing the new tree. The model shows the tree and changes nothing else.
- Explorer.ExplorerWidget.HandleDrop: uses the corrected guard (see Findings). The drop target is the display node that the page resolves.
- Explorer.DragPayload: the payload travels through the provider's shared data as a JSON value. That encoding is not modelled.
- Chat.ChatPanel.ReceiveChunk: exceptions thrown inside the throttled pass are not modelled, since parse failures are already absorbed per candidate.
- ChatUtils.Response.GenerateResponse: models the stream with the corrected escaping and commas (see Findings). The layout as written is `StreamAsWritten` with `EscapeAsWritten`. Responses are values, not objects: the same dict added twice is one object in the source, stamped once, so both elements carry the same id. The model stamps each position on its own (`Stamped`) and gives them distinct ids. The panel's merge of such a repeated id (replacing the last bubble, or skipping a repeated event) is therefore not reached from this stream.

## Findings

| source | as written | input that shows it | evidently intended | confidence | as-written member | corrected member |
|---|---|---|---|---|---|---|
| src/ts/components/Explorer.tsx:306-320 with src/ts/helper.tsx:123 | a drop is accepted onto any target, including the Shared root `s`; the copy gets `parent: "s"`, which no record has, so the builder's loop never ends | a record dragged from another widget and dropped on the Shared root | accept only targets the builder can find: `h` or a listed id | not executed | Explorer.SharedDropDiverges | Explorer.DropPlaceable |
| src/ts/components/Chat.tsx:132 | `useDashpoolData() \|\| { sharedData: {} }` never reaches the fallback, because the hook throws outside a provider | the chat panel rendered without a provider | no shared data outside a provider | not executed | Provider.ChatFallbackUnreachable | Provider.ChatSharedData |
| dashpool_components_base/chatutils.py:111 | `'` is escaped as `\'`, which is not a JSON escape, and backslashes are not escaped | a generator yielding `it's`, or the text `\n` | escape for a JSON string literal so the text arrives unchanged | not executed | ChatUtils.ApostropheBreaksJson | ChatUtils.EscapeRoundTrip |
| dashpool_components_base/chatutils.py:94-114 | every response is followed by `\n,\n`, and generator elements by `\n` only: a comma before `]`, or two elements with no comma between them | one response and no generator; or two generators | a JSON array: commas between elements only | not executed | ChatUtils.TrailingCommaAsWritten | ChatUtils.StreamLines |
