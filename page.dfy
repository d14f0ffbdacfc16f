/** One results page: the listing nodes it holds and the records accepted from them. */
module Page {
  import opened Wrappers
  import opened Fields
  import opened Listing
  import opened Seqs

  /** Which `except` branch a failed page ends in; both give an empty page. */
  datatype FailureKind = RequestError | UnexpectedError

  /**
   * What fetching and parsing one page gives: the `li.s-item` nodes and the
   * `div.s-item__wrapper` nodes of the document, or the failure that was raised
   * (a network error, a non-2xx status from `raise_for_status`, anything else).
   */
  datatype FetchOutcome =
    | Parsed(itemNodes: seq<ListingNode>, wrapperNodes: seq<ListingNode>)
    | Failed(kind: FailureKind)

  /** The listing nodes of a page: the primary selector's, or the alternative's only when those are none. */
  function Items(outcome: FetchOutcome): seq<ListingNode>
    requires outcome.Parsed?
  {
    if |outcome.itemNodes| > 0 then outcome.itemNodes else outcome.wrapperNodes
  }

  /** The extractor with the selection and the page's timestamp fixed. */
  function ExtractWith(selected: seq<FieldId>, now: string): ListingNode -> Option<Record>
  {
    x => Extract(x, selected, now)
  }

  /** The records extracted from `nodes`, rejected nodes skipped, in node order. */
  function Accepted(nodes: seq<ListingNode>, selected: seq<FieldId>, now: string): (r: seq<Record>)
    ensures |r| <= |nodes|
  {
    FilterMap(nodes, ExtractWith(selected, now))
  }

  /** Every accepted record was extracted from one of the nodes, and every node that is not rejected gives its record. */
  lemma AcceptedMembers(nodes: seq<ListingNode>, selected: seq<FieldId>, now: string)
    ensures forall p :: p in Accepted(nodes, selected, now) ==> exists x :: x in nodes && Extract(x, selected, now) == Some(p)
    ensures forall x :: x in nodes && Extract(x, selected, now).Some? ==> Extract(x, selected, now).value in Accepted(nodes, selected, now)
  {
    FilterMapMembers(nodes, ExtractWith(selected, now));
  }

  /** Extraction keeps the page's order: the records of a concatenation are the concatenated records. */
  lemma AcceptedAppend(xs: seq<ListingNode>, ys: seq<ListingNode>, selected: seq<FieldId>, now: string)
    ensures Accepted(xs + ys, selected, now) == Accepted(xs, selected, now) + Accepted(ys, selected, now)
  {
    FilterMapAppend(xs, ys, ExtractWith(selected, now));
  }

  /** A single node gives its record, or nothing when it is rejected. */
  lemma AcceptedSingle(x: ListingNode, selected: seq<FieldId>, now: string)
    ensures Accepted([x], selected, now) == match Extract(x, selected, now) case Some(p) => [p] case None => []
  {
    assert [x][..0] == [];
  }

  /** The records of one page; a failed page gives none. */
  function PageProducts(outcome: FetchOutcome, selected: seq<FieldId>, now: string): seq<Record>
  {
    match outcome
    case Failed(_) => []
    case Parsed(_, _) => Accepted(Items(outcome), selected, now)
  }

  /**
   * The alternative nodes are consulted only when the primary selector finds
   * nothing, and a page never yields more records than it has nodes.
   */
  lemma PageFallback(outcome: FetchOutcome, selected: seq<FieldId>, now: string)
    requires outcome.Parsed?
    ensures |outcome.itemNodes| > 0 ==> PageProducts(outcome, selected, now) == Accepted(outcome.itemNodes, selected, now)
    ensures |outcome.itemNodes| == 0 ==> PageProducts(outcome, selected, now) == Accepted(outcome.wrapperNodes, selected, now)
    ensures |PageProducts(outcome, selected, now)| <= |Items(outcome)|
  {
  }
}
