/**
 * The document classes of the Python package (dashpool_components_base/document_classes):
 * the records a Dash app builds and serialises with `to_dict` for the widgets. Each
 * serialiser is paired with a reader of the dict it produces, and the round trip through the
 * two shows that the dict keeps every field, in place and in order.
 *
 * Python's `None` is `Null`; the pdf coordinates, which are only copied, are opaque JSON
 * values.
 */
module Documents {
  import opened Wrappers
  import opened JsonValues
  import Chat
  import ChatUtils

  // ---------------------------------------------------------------------------------------
  // Events (misc.py)

  /** `DashpoolEvent(id, data, ref=None)` and `NodeChangeEvent(id, data, ref=None)`. */
  datatype Event =
    | DashpoolEvent(id: Json, data: Json, ref: Json := Null)
    | NodeChangeEvent(id: Json, data: Json, ref: Json := Null)

  function EventRole(e: Event): string {
    if e.DashpoolEvent? then "dashpoolEvent" else "nodeChangeEvent"
  }

  /** `to_dict` of both event classes. */
  function EventDict(e: Event): Json {
    Obj(map["role" := Str(EventRole(e)), "ref" := e.ref, "id" := e.id, "content" := e.data])
  }

  /** The event a dict of the shape `EventDict` makes describes. */
  function ReadEvent(d: Json): Option<Event> {
    if d.Obj? && "role" in d.fields && "ref" in d.fields && "id" in d.fields && "content" in d.fields then
      var f := d.fields;
      if f["role"] == Str("dashpoolEvent") then Some(DashpoolEvent(f["id"], f["content"], f["ref"]))
      else if f["role"] == Str("nodeChangeEvent") then Some(NodeChangeEvent(f["id"], f["content"], f["ref"]))
      else None
    else None
  }

  /** The dict of an event keeps its kind, its id, its data (as `content`) and its ref. */
  lemma EventRoundTrip(e: Event)
    ensures ReadEvent(EventDict(e)) == Some(e)
  {
  }

  /** An event made without a ref is sent with `"ref": null`. */
  lemma EventDefaultRef(id: Json, data: Json)
    ensures Get(EventDict(DashpoolEvent(id, data)), "ref") == Some(Null)
    ensures Get(EventDict(NodeChangeEvent(id, data)), "ref") == Some(Null)
  {
  }

  /** The chat panel reads the dict of an event as that event, with the data as content. */
  lemma EventDictQueued(e: Event)
    ensures Chat.IsEvent(EventDict(e))
    ensures Chat.EventOf(EventDict(e))
              == if e.DashpoolEvent? then Chat.DashpoolEvent(Some(e.data)) else Chat.NodeChangeEvent(Some(e.data))
  {
  }

  // ---------------------------------------------------------------------------------------
  // Photo (photo.py)

  /** `Photo(url, width=None, height=None, ref=None)`; `show` is false on construction and
      is an attribute the app may reassign. */
  datatype Photo = Photo(url: Json, width: Json := Null, height: Json := Null, ref: Json := Null,
                         show: bool := false)

  function PhotoDict(p: Photo): Json {
    Obj(map["role" := Str("photo"), "ref" := p.ref, "show" := Bool(p.show),
            "data" := Obj(map["uri" := p.url, "size" := Str(""), "width" := p.width, "height" := p.height])])
  }

  function ReadPhoto(d: Json): Option<Photo> {
    if d.Obj? && "role" in d.fields && "ref" in d.fields && "show" in d.fields && "data" in d.fields then
      var f := d.fields;
      var data := f["data"];
      if f["role"] == Str("photo") && f["show"].Bool? && data.Obj?
         && "uri" in data.fields && "width" in data.fields && "height" in data.fields
      then Some(Photo(data.fields["uri"], data.fields["width"], data.fields["height"], f["ref"], f["show"].b))
      else None
    else None
  }

  /** The dict of a photo keeps its url (as `uri`), width, height, ref and `show`, and its
      size is always empty. */
  lemma PhotoRoundTrip(p: Photo)
    ensures ReadPhoto(PhotoDict(p)) == Some(p)
    ensures Get(PhotoDict(p).fields["data"], "size") == Some(Str(""))
  {
  }

  /** A photo made from a url alone is sent hidden, with null width, height and ref. */
  lemma PhotoDefaults(url: Json)
    ensures var d := PhotoDict(Photo(url));
            && Get(d, "show") == Some(Bool(false)) && Get(d, "ref") == Some(Null)
            && Get(d.fields["data"], "width") == Some(Null) && Get(d.fields["data"], "height") == Some(Null)
  {
  }

  /** The chat panel shows the photo on the left with the width and height as given: unlike
      the chat helper's photo, nothing falls back to 100. */
  lemma PhotoShownAsGiven(p: Photo)
    ensures var c := Chat.ToChatMessage(PhotoDict(p));
            && c.PhotoItem? && Chat.Position(c) == "left"
            && Get(c.data, "uri") == Some(p.url)
            && Get(c.data, "width") == Some(p.width) && Get(c.data, "height") == Some(p.height)
  {
  }

  /** The two photo classes disagree on a photo without a size. */
  lemma PhotoClassesDiffer(url: Json)
    ensures Get(PhotoDict(Photo(url)).fields["data"], "width") == Some(Null)
    ensures var d := ChatUtils.ToDict(ChatUtils.Photo(url, Null, Null));
            Get(d.fields["data"], "width") == Some(Num(100))
  {
  }

  // ---------------------------------------------------------------------------------------
  // Reference (reference.py)

  /** `Reference(url, markdown="", ref=None, img=None)`. */
  datatype Reference = Reference(url: Json, markdown: Json := Str(""), ref: Json := Null, img: Json := Null)

  function ReferenceDict(r: Reference): Json {
    Obj(map["role" := Str("reference"), "ref" := r.ref, "show" := Bool(false),
            "data" := Obj(map["url" := r.url, "size" := Str(""), "markdown" := r.markdown, "img" := r.img])])
  }

  function ReadReference(d: Json): Option<Reference> {
    if d.Obj? && "role" in d.fields && "ref" in d.fields && "data" in d.fields then
      var f := d.fields;
      var data := f["data"];
      if f["role"] == Str("reference") && data.Obj?
         && "url" in data.fields && "markdown" in data.fields && "img" in data.fields
      then Some(Reference(data.fields["url"], data.fields["markdown"], f["ref"], data.fields["img"]))
      else None
    else None
  }

  /** The dict of a reference keeps its url, markdown, image and ref; it is always hidden and
      its size is always empty. */
  lemma ReferenceRoundTrip(r: Reference)
    ensures ReadReference(ReferenceDict(r)) == Some(r)
    ensures Get(ReferenceDict(r), "show") == Some(Bool(false))
    ensures Get(ReferenceDict(r).fields["data"], "size") == Some(Str(""))
  {
  }

  /** A reference made from a url alone has empty markdown and null ref and image. */
  lemma ReferenceDefaults(url: Json)
    ensures var d := ReferenceDict(Reference(url));
            && Get(d, "ref") == Some(Null)
            && Get(d.fields["data"], "markdown") == Some(Str(""))
            && Get(d.fields["data"], "img") == Some(Null)
  {
  }

  // ---------------------------------------------------------------------------------------
  // PDF (pdf.py)

  /** `PdfHighlightContent`. */
  datatype HighlightContent = HighlightContent(text: Json := Null, image: Json := Null)

  /** `PdfHighlightPositionRect`: the coordinates are copied, never computed with. */
  datatype Rect = Rect(x1: Json, y1: Json, x2: Json, y2: Json, width: Json, height: Json, pageNumber: Json := Null)

  /** `PdfHighlightPosition`. */
  datatype Position = Position(boundingRect: Rect, rects: seq<Rect>, pageNumber: Json)

  /** `PdfHighlightComment`. */
  datatype Comment = Comment(text: Json := Null, emoji: Json := Null)

  /** `PdfHighlight`: every field defaults to `None`. */
  datatype Highlight = Highlight(content: Option<HighlightContent> := None, position: Option<Position> := None,
                                 comment: Option<Comment> := None, id: Json := Null, fileId: Json := Null,
                                 fileMode: Json := Null)

  /** A value in the `highlights` argument: a `PdfHighlight` or anything else. */
  datatype HighlightArg = IsHighlight(h: Highlight) | NotHighlight(v: Json)

  /** `PDF(url, highlights=[], name=None, ref=None)`; `show` is false on construction. */
  datatype Pdf = Pdf(url: Json, highlights: seq<Highlight>, name: Json, ref: Json, show: bool)

  const AssertionError: string := "AssertionError"

  /** The highlights of the argument, or `None` when one of them is not a `PdfHighlight`. */
  function Checked(args: seq<HighlightArg>): (r: Option<seq<Highlight>>)
    ensures r.Some? <==> forall i | 0 <= i < |args| :: args[i].IsHighlight?
    ensures r.Some? ==> |r.value| == |args| && forall i | 0 <= i < |args| :: r.value[i] == args[i].h
    decreases |args|
  {
    if args == [] then Some([])
    else if args[0].NotHighlight? then None
    else
      match Checked(args[1..])
      case None => None
      case Some(rest) => Some([args[0].h] + rest)
  }

  /** The constructor: it fails unless every highlight is a `PdfHighlight`. */
  function NewPdf(url: Json, args: seq<HighlightArg> := [], name: Json := Null, ref: Json := Null): (r: Result<Pdf, string>)
    ensures r.Success? <==> forall i | 0 <= i < |args| :: args[i].IsHighlight?
    ensures r.Failure? ==> r.error == AssertionError
    ensures r.Success? ==> && r.value.url == url && r.value.name == name && r.value.ref == ref && !r.value.show
                           && |r.value.highlights| == |args|
                           && forall i | 0 <= i < |args| :: r.value.highlights[i] == args[i].h
  {
    match Checked(args)
    case None => Failure(AssertionError)
    case Some(hs) => Success(Pdf(url, hs, name, ref, false))
  }

  function RectDict(r: Rect): Json {
    Obj(map["x1" := r.x1, "y1" := r.y1, "x2" := r.x2, "y2" := r.y2, "width" := r.width,
            "height" := r.height, "pageNumber" := r.pageNumber])
  }

  /** The dicts of the rectangles: one per rectangle, in order. */
  function RectDicts(rs: seq<Rect>): (ds: seq<Json>)
    ensures |ds| == |rs| && forall i | 0 <= i < |rs| :: ds[i] == RectDict(rs[i])
    decreases |rs|
  {
    if rs == [] then [] else [RectDict(rs[0])] + RectDicts(rs[1..])
  }

  /** The message of the `AttributeError` raised by reading `attribute` of `None`. */
  function NoAttribute(attribute: string): string {
    "'NoneType' object has no attribute '" + attribute + "'"
  }

  /** A highlight whose dict can be built: content, position and comment are all given. */
  predicate Complete(h: Highlight) {
    h.content.Some? && h.position.Some? && h.comment.Some?
  }

  /** The error `highlights_to_dict` raises for an incomplete highlight: the first missing
      attribute in the order the dict is built. */
  function Missing(h: Highlight): string
    requires !Complete(h)
  {
    if h.content.None? then NoAttribute("text")
    else if h.position.None? then NoAttribute("boundingRect")
    else NoAttribute("text")
  }

  function HighlightDict(h: Highlight): Json
    requires Complete(h)
  {
    var c, p, m := h.content.value, h.position.value, h.comment.value;
    Obj(map[
      "content" := Obj(map["text" := c.text, "image" := c.image]),
      "position" := Obj(map["boundingRect" := RectDict(p.boundingRect), "rects" := Arr(RectDicts(p.rects)),
                            "pageNumber" := p.pageNumber]),
      "comment" := Obj(map["text" := m.text, "emoji" := m.emoji]),
      "id" := h.id, "file_id" := h.fileId, "file_mode" := h.fileMode])
  }

  /** `highlights_to_dict`: one dict per highlight, in order, or the error of the first
      incomplete highlight. */
  function HighlightsToDict(hs: seq<Highlight>): (r: Result<seq<Json>, string>)
    ensures r.Success? <==> forall i | 0 <= i < |hs| :: Complete(hs[i])
    ensures r.Success? ==> |r.value| == |hs| && forall i | 0 <= i < |hs| :: r.value[i] == HighlightDict(hs[i])
    ensures r.Failure? ==> exists i | 0 <= i < |hs| :: && !Complete(hs[i]) && r.error == Missing(hs[i])
                                                     && forall j | 0 <= j < i :: Complete(hs[j])
    decreases |hs|
  {
    if hs == [] then Success([])
    else if !Complete(hs[0]) then Failure(Missing(hs[0]))
    else
      match HighlightsToDict(hs[1..])
      case Failure(e) =>
        assert forall i | 1 <= i < |hs| :: hs[i] == hs[1..][i - 1];
        Failure(e)
      case Success(rest) => Success([HighlightDict(hs[0])] + rest)
  }

  /** The dicts of complete highlights read back as the same highlights, in order. */
  lemma {:induction false} HighlightsRoundTrip(hs: seq<Highlight>)
    requires forall i | 0 <= i < |hs| :: Complete(hs[i])
    ensures ReadHighlights(HighlightsToDict(hs).value) == Some(hs)
    decreases |hs|
  {
    if hs != [] {
      var ds := HighlightsToDict(hs).value;
      HighlightsRoundTrip(hs[1..]);
      HighlightRoundTrip(hs[0]);
      assert ds[1..] == HighlightsToDict(hs[1..]).value;
      assert [hs[0]] + hs[1..] == hs;
    }
  }

  /** The PDF's dict, or the error of `highlights_to_dict`. */
  function PdfDict(p: Pdf): Result<Json, string> {
    match HighlightsToDict(p.highlights)
    case Failure(e) => Failure(e)
    case Success(hs) => Success(PdfObj(p, hs))
  }

  /** The PDF's dict around the dicts of its highlights. */
  function PdfObj(p: Pdf, hs: seq<Json>): Json {
    Obj(map["role" := Str("pdf"), "ref" := p.ref, "show" := Bool(p.show),
            "data" := Obj(map["url" := p.url, "size" := Str(""), "name" := p.name, "highlights" := Arr(hs)])])
  }

  // Readers of the dicts above.

  function ReadRect(d: Json): Option<Rect> {
    if d.Obj? && "x1" in d.fields && "y1" in d.fields && "x2" in d.fields && "y2" in d.fields
       && "width" in d.fields && "height" in d.fields && "pageNumber" in d.fields
    then
      var f := d.fields;
      Some(Rect(f["x1"], f["y1"], f["x2"], f["y2"], f["width"], f["height"], f["pageNumber"]))
    else None
  }

  function ReadRects(ds: seq<Json>): Option<seq<Rect>>
    decreases |ds|
  {
    if ds == [] then Some([])
    else
      match (ReadRect(ds[0]), ReadRects(ds[1..]))
      case (Some(r), Some(rest)) => Some([r] + rest)
      case _ => None
  }

  function ReadHighlight(d: Json): Option<Highlight> {
    if d.Obj? && "content" in d.fields && "position" in d.fields && "comment" in d.fields
       && "id" in d.fields && "file_id" in d.fields && "file_mode" in d.fields
    then
      var f := d.fields;
      var c, p, m := f["content"], f["position"], f["comment"];
      if c.Obj? && "text" in c.fields && "image" in c.fields
         && p.Obj? && "boundingRect" in p.fields && "rects" in p.fields && "pageNumber" in p.fields
         && p.fields["rects"].Arr?
         && m.Obj? && "text" in m.fields && "emoji" in m.fields
      then
        match (ReadRect(p.fields["boundingRect"]), ReadRects(p.fields["rects"].items))
        case (Some(b), Some(rs)) =>
          Some(Highlight(Some(HighlightContent(c.fields["text"], c.fields["image"])),
                         Some(Position(b, rs, p.fields["pageNumber"])),
                         Some(Comment(m.fields["text"], m.fields["emoji"])),
                         f["id"], f["file_id"], f["file_mode"]))
        case _ => None
      else None
    else None
  }

  function ReadHighlights(ds: seq<Json>): Option<seq<Highlight>>
    decreases |ds|
  {
    if ds == [] then Some([])
    else
      match (ReadHighlight(ds[0]), ReadHighlights(ds[1..]))
      case (Some(h), Some(rest)) => Some([h] + rest)
      case _ => None
  }

  function ReadPdf(d: Json): Option<Pdf> {
    if d.Obj? && "role" in d.fields && "ref" in d.fields && "show" in d.fields && "data" in d.fields then
      var f := d.fields;
      var data := f["data"];
      if f["role"] == Str("pdf") && f["show"].Bool? && data.Obj?
         && "url" in data.fields && "name" in data.fields && "highlights" in data.fields
         && data.fields["highlights"].Arr?
      then
        match ReadHighlights(data.fields["highlights"].items)
        case Some(hs) => Some(Pdf(data.fields["url"], hs, data.fields["name"], f["ref"], f["show"].b))
        case None => None
      else None
    else None
  }

  lemma RectRoundTrip(r: Rect)
    ensures ReadRect(RectDict(r)) == Some(r)
  {
  }

  /** The rectangles' dicts read back as the same rectangles, in the same order. */
  lemma {:induction false} RectsRoundTrip(rs: seq<Rect>)
    ensures ReadRects(RectDicts(rs)) == Some(rs)
    decreases |rs|
  {
    if rs != [] {
      RectsRoundTrip(rs[1..]);
      RectRoundTrip(rs[0]);
      assert RectDicts(rs)[1..] == RectDicts(rs[1..]);
      assert [rs[0]] + rs[1..] == rs;
    }
  }

  /** A complete highlight's dict keeps every field of it. */
  lemma HighlightRoundTrip(h: Highlight)
    requires Complete(h)
    ensures ReadHighlight(HighlightDict(h)) == Some(h)
  {
    var p := h.position.value;
    RectRoundTrip(p.boundingRect);
    RectsRoundTrip(p.rects);
  }

  /** `to_dict` fails exactly when a highlight is incomplete. */
  lemma PdfDictFails(p: Pdf)
    ensures PdfDict(p).Failure? <==> exists i | 0 <= i < |p.highlights| :: !Complete(p.highlights[i])
  {
  }

  /** The dict of a PDF whose highlights are complete keeps its url, name, ref, `show` and
      every highlight, in order; its size is always empty. */
  lemma PdfRoundTrip(p: Pdf)
    requires forall i | 0 <= i < |p.highlights| :: Complete(p.highlights[i])
    ensures PdfDict(p).Success?
    ensures ReadPdf(PdfDict(p).value) == Some(p)
    ensures Get(PdfDict(p).value.fields["data"], "size") == Some(Str(""))
  {
    var hs := HighlightsToDict(p.highlights).value;
    HighlightsRoundTrip(p.highlights);
    ReadPdfObj(p, hs);
  }

  lemma ReadPdfObj(p: Pdf, hs: seq<Json>)
    requires ReadHighlights(hs) == Some(p.highlights)
    ensures ReadPdf(PdfObj(p, hs)) == Some(p)
    ensures Get(PdfObj(p, hs).fields["data"], "size") == Some(Str(""))
  {
  }

  /** A PDF made from a url alone is hidden, with no highlights and a null name and ref. */
  lemma PdfDefaults(url: Json)
    ensures NewPdf(url).Success?
    ensures var p := NewPdf(url).value;
            PdfDict(p) == Success(Obj(map["role" := Str("pdf"), "ref" := Null, "show" := Bool(false),
                                          "data" := Obj(map["url" := url, "size" := Str(""), "name" := Null,
                                                            "highlights" := Arr([])])]))
  {
  }
}
