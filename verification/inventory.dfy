/** The inventory fetcher without its network call: the query's answer is an
    input, and what is modelled is how the answer becomes one instance list. */
module Inventory {
  import opened Ec2
  import opened Seqs

  /** The answer of the "running instances" query: the reservations in the
      order the API returned them, or the error it reported. */
  datatype DescribeResult =
    | Reservations(reservations: seq<Reservation>)
    | DescribeError(message: string)

  /** The flattening loop from index `idx` on: each reservation's instances are
      put IN FRONT of the list built so far. */
  function FlattenFrom(rs: seq<Reservation>, idx: nat, acc: seq<Instance>): (r: seq<Instance>)
    requires idx <= |rs|
    ensures r == Concat(Reverse(rs[idx..])) + acc
    decreases |rs| - idx
  {
    if idx == |rs| then acc
    else
      assert rs[idx..] == [rs[idx]] + rs[idx + 1..];
      ConcatAppend(Reverse(rs[idx + 1..]), rs[idx]);
      FlattenFrom(rs, idx + 1, rs[idx] + acc)
  }

  /** The instance list `fetchInstances` returns for a successful query. */
  function Flatten(rs: seq<Reservation>): seq<Instance>
  {
    FlattenFrom(rs, 0, [])
  }

  /** The flattened list is the reservations in REVERSE order, each keeping its
      own internal order; it holds every fetched instance and nothing else. */
  lemma FlattenReverses(rs: seq<Reservation>)
    ensures Flatten(rs) == Concat(Reverse(rs))
    ensures |Flatten(rs)| == TotalLength(rs)
    ensures forall x :: x in Flatten(rs) <==> exists k :: 0 <= k < |rs| && x in rs[k]
  {
    assert rs[0..] == rs;
    ConcatLength(Reverse(rs));
    TotalLengthReverse(rs);
    forall x ensures x in Flatten(rs) <==> exists k :: 0 <= k < |rs| && x in rs[k] {
      InConcat(Reverse(rs), x);
      if exists k :: 0 <= k < |rs| && x in rs[k] {
        var k :| 0 <= k < |rs| && x in rs[k];
        assert Reverse(rs)[|rs| - 1 - k] == rs[k];
      }
      if exists k :: 0 <= k < |rs| && x in Reverse(rs)[k] {
        var k :| 0 <= k < |rs| && x in Reverse(rs)[k];
        assert x in rs[|rs| - 1 - k];
      }
    }
  }

  /** The example of two reservations: the second one's instances come first. */
  lemma FlattenTwoReservations(a: Reservation, b: Reservation)
    ensures Flatten([a, b]) == b + a
  {
    FlattenReverses([a, b]);
    assert Reverse([a, b]) == [b, a];
    assert Concat([b, a]) == b + Concat([a]);
  }
}
