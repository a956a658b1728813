/** What every paging loop of the scripts does with one query: it sends the
    transcripts query at an offset `skip` and either stops (the query raised,
    or there is no data, no `transcripts` key, or an empty or null list) or
    goes on with a non-empty batch. */
module Paging {
  import opened Wrappers
  import opened Records
  import opened FirefliesApi

  /** The API as a loop sees it: the exchange answering the transcripts query
      at offset `skip`, with the loop's fixed page size. */
  type Server = nat -> Exchange

  datatype Page = Raised(message: string) | Exhausted | Batch(items: seq<Transcript>)

  /** `data = execute_query(...)`, then `if not data or "transcripts" not in
      data: break`, `batch = data["transcripts"]`, `if not batch: break`. */
  function PageOf(reply: Result<Option<Data>, ApiError>): (p: Page)
    ensures p.Raised? <==> reply.Failure?
    ensures p.Raised? ==> p.message == ErrorText(reply.error)
    ensures p.Batch? <==> reply.Success? && reply.value.Some? && NonEmptyList(reply.value.value.transcripts)
    ensures p.Batch? ==> p.items == reply.value.value.transcripts.value && |p.items| > 0
  {
    match reply
    case Failure(e) => Raised(ErrorText(e))
    case Success(None) => Exhausted
    case Success(Some(d)) =>
      if NonEmptyList(d.transcripts) then Batch(d.transcripts.value) else Exhausted
  }

  /** What the query at each offset hands the loop. */
  type Pages = nat -> Page

  function PagesOf(server: Server): Pages
  {
    (skip: nat) => PageOf(ExecuteQuery(server(skip)))
  }

  /** The transcripts a page hands to the loop body. */
  function PageItems(p: Page): seq<Transcript>
  {
    if p.Batch? then p.items else []
  }

  /** All transcripts returned by the queries at the offsets `qs`, in order. */
  function Stream(pages: Pages, qs: seq<nat>): seq<Transcript>
  {
    if qs == [] then [] else PageItems(pages(qs[0])) + Stream(pages, qs[1..])
  }

  lemma StreamOne(pages: Pages, q: nat)
    ensures Stream(pages, [q]) == PageItems(pages(q))
  {
    assert [q][1..] == [];
  }

  lemma StreamCons(pages: Pages, q: nat, qs: seq<nat>)
    ensures Stream(pages, [q] + qs) == PageItems(pages(q)) + Stream(pages, qs)
  {
    assert ([q] + qs)[1..] == qs;
  }

  /** How many transcripts the batches at the offsets `qs` handed over. */
  function BatchTotal(pages: Pages, qs: seq<nat>): nat
  {
    if qs == [] then 0 else |PageItems(pages(qs[0]))| + BatchTotal(pages, qs[1..])
  }

  lemma BatchTotalCons(pages: Pages, q: nat, qs: seq<nat>)
    ensures BatchTotal(pages, [q] + qs) == |PageItems(pages(q))| + BatchTotal(pages, qs)
  {
    assert ([q] + qs)[1..] == qs;
  }

  /** The offsets 0, step, 2*step, ...: `n` queries of a loop that adds a
      fixed page size to `skip` after each batch. */
  predicate Stepped(qs: seq<nat>, step: nat)
  {
    forall i :: 0 <= i < |qs| ==> qs[i] == step * i
  }

  /** Shifting a stepped run that starts at `start` by one step. */
  predicate SteppedFrom(qs: seq<nat>, start: nat, step: nat)
  {
    forall i :: 0 <= i < |qs| ==> qs[i] == start + step * i
  }

  lemma SteppedCons(qs: seq<nat>, start: nat, step: nat)
    requires SteppedFrom(qs, start + step, step)
    ensures SteppedFrom([start] + qs, start, step)
  {
    var r := [start] + qs;
    forall i | 0 <= i < |r| ensures r[i] == start + step * i {
      if i > 0 { assert r[i] == qs[i - 1]; }
    }
  }
}
