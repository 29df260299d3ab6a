/** What the request handlers receive from the storage collaborator. Each
    query is a total function from its arguments to an `Answer`, so a
    handler can be evaluated against any behaviour of the database. */
module Domain {
  import opened Results
  import opened Calendar
  import opened Seqs

  /** A show record; beyond its id and date the record is opaque here. */
  datatype Show = Show(id: int, date: Date)

  /** The entity kinds with a slug-addressed detail page. */
  datatype Kind = Guest | Host | Panelist | Scorekeeper

  /** A guest, host, panelist or scorekeeper record. */
  datatype Entity = Entity(id: int, slug: string, name: string)

  /** One request's view of the database. `reconnects` says whether
      `database_connection.reconnect()` succeeds; every query answers
      `Fault` when it raises. Empty lists and `None` are ordinary answers. */
  datatype Storage = Storage(
    reconnects: bool,
    years: Answer<seq<int>>,
    recent: Answer<seq<Show>>,
    monthsByYear: int -> Answer<seq<int>>,
    byYearMonth: (int, int) -> Answer<seq<Show>>,
    byDate: Date -> Answer<Option<Show>>,
    byYear: int -> Answer<seq<Show>>,
    dateExists: Date -> Answer<bool>,
    bySlug: (Kind, string) -> Answer<Option<Entity>>)

  /** `retrieve_show_years()` with its default `reverse_order=True`: it
      reconnects, fetches the years and lists them in the reverse of the storage's order
      (newest first when the storage lists oldest first: see
      `Seqs.ReverseOfAscending`). */
  function ShowYears(st: Storage): (r: Answer<seq<int>>)
    ensures r.Ok? <==> st.reconnects && st.years.Ok?
    ensures r.Ok? ==> |r.value| == |st.years.value|
    ensures r.Ok? ==> forall i :: 0 <= i < |r.value| ==>
      r.value[i] == st.years.value[|st.years.value| - 1 - i]
  {
    if !st.reconnects then Fault
    else match st.years
      case Fault => Fault
      case Ok(ys) => Ok(Reverse(ys))
  }
}
