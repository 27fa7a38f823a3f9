/**
 * The shared-data provider (src/ts/components/DashpoolProvider.tsx): one state cell of shared
 * data (the element being dragged between widgets, the list of apps) that every widget under
 * the provider reads, and an update that merges new entries into it.
 *
 * Values are `Option<Json>` because a spread copies an `undefined` entry like any other.
 */
module Provider {
  import opened Wrappers
  import opened JsonValues

  type SharedData = map<string, Option<Json>>

  /** `{ ...base, ...newData }`: every entry of `newData`, then the entries of `base` whose
      key `newData` does not have. */
  function Spread(base: SharedData, newData: SharedData): (r: SharedData)
    ensures r.Keys == base.Keys + newData.Keys
    ensures forall k | k in newData :: r[k] == newData[k]
    ensures forall k | k in base && k !in newData :: r[k] == base[k]
  {
    base + newData
  }

  /** Merging the same entries twice is merging them once. */
  lemma SpreadIdempotent(base: SharedData, newData: SharedData)
    ensures Spread(Spread(base, newData), newData) == Spread(base, newData)
  {
  }

  /** Two merges in a row are one merge of the second over the first. */
  lemma SpreadTwice(base: SharedData, n1: SharedData, n2: SharedData)
    ensures Spread(Spread(base, n1), n2) == Spread(base, Spread(n1, n2))
  {
  }

  /** What the provider hands to the widgets below it. */
  datatype Context = Context(sharedData: SharedData)

  const OutsideProvider: string := "useDashpoolData must be used within a DashpoolProvider"

  /** `useDashpoolData`: the nearest provider's context, and an error outside any provider. */
  function UseDashpoolData(nearest: Option<Context>): (r: Result<Context, string>)
    ensures nearest.None? <==> r.Failure?
    ensures r.Failure? ==> r.error == OutsideProvider
    ensures nearest.Some? ==> r == Success(nearest.value)
  {
    match nearest
    case None => Failure(OutsideProvider)
    case Some(c) => Success(c)
  }

  /** The chat panel's lookup `useDashpoolData() || { sharedData: {} }`, as written: the
      hook throws before the fallback is reached. */
  function ChatSharedDataAsWritten(nearest: Option<Context>): Result<SharedData, string> {
    match UseDashpoolData(nearest)
    case Success(c) => Success(c.sharedData)
    case Failure(e) => Failure(e)
  }

  /** Outside a provider the chat panel fails instead of using the empty fallback. */
  lemma ChatFallbackUnreachable()
    ensures ChatSharedDataAsWritten(None).Failure?
    ensures ChatSharedDataAsWritten(None) != Success(map[])
  {
  }

  /** The chat panel's lookup as evidently intended: outside a provider it sees no shared
      data. */
  function ChatSharedData(nearest: Option<Context>): (r: SharedData)
    ensures nearest.None? ==> r == map[]
    ensures nearest.Some? ==> ChatSharedDataAsWritten(nearest) == Success(r)
  {
    match nearest
    case None => map[]
    case Some(c) => c.sharedData
  }

  class DashpoolProvider {
    /** The state cell. */
    var sharedData: SharedData
    /** The state as of the last render: what the widgets read, and what the update function
        handed to them merges into. */
    var rendered: SharedData

    /** The provider starts with the empty object. */
    constructor()
      ensures sharedData == map[] && rendered == map[]
      ensures Provide() == Context(map[])
    {
      sharedData := map[];
      rendered := map[];
    }

    /** The context value of the last render. */
    function Provide(): (c: Context)
      reads this
      ensures c.sharedData == rendered
    {
      Context(rendered)
    }

    /** A render: the widgets now see the current state. */
    method Render()
      modifies this`rendered
      ensures rendered == sharedData
    {
      rendered := sharedData;
    }

    /** `updateSharedData(newData)`: the new entries win and every other key keeps the value
        the widgets saw. */
    method UpdateSharedData(newData: SharedData)
      modifies this`sharedData
      ensures sharedData == Spread(rendered, newData)
      ensures forall k | k in newData :: sharedData[k] == newData[k]
      ensures forall k | k in rendered && k !in newData :: sharedData[k] == rendered[k]
    {
      sharedData := rendered + newData;
    }
  }

  /** An update followed by a render: the widgets see the merge. */
  method UpdateAndRender(p: DashpoolProvider, newData: SharedData)
    modifies p
    ensures p.Provide().sharedData == Spread(old(p.rendered), newData)
  {
    p.UpdateSharedData(newData);
    p.Render();
  }
}
