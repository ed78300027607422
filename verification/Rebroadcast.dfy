/** Which transactions the Confirmer sends again (FindTxsRequiringRebroadcast in chains/txmgr/confirmer.go). */
module Rebroadcast {
  /** A row of the store's answer. */
  datatype Row = Row(id: int, sequence: int)

  predicate NoRepeats(rows: seq<Row>) {
    forall i, j :: 0 <= i < j < |rows| ==> rows[i].id != rows[j].id
  }

  /** In the union of the two answers; an id in both keeps its row of the first. */
  ghost predicate InUnion(rows: seq<Row>, others: seq<Row>, r: Row) {
    r in rows || (r in others && forall o :: o in rows ==> o.id != r.id)
  }

  predicate Ascending(rows: seq<Row>) {
    forall i, j :: 0 <= i < j < |rows| ==> rows[i].sequence <= rows[j].sequence
  }

  /** Inserting a row behind those that do not come after it. */
  lemma Inserted(rows: seq<Row>, at: nat, r: Row)
    requires Ascending(rows) && NoRepeats(rows) && at <= |rows|
    requires forall k :: 0 <= k < at ==> rows[k].sequence <= r.sequence
    requires forall k :: at <= k < |rows| ==> r.sequence <= rows[k].sequence
    requires forall k :: 0 <= k < |rows| ==> rows[k].id != r.id
    ensures var s := rows[..at] + [r] + rows[at..];
            Ascending(s) && NoRepeats(s) && forall x :: x in s <==> x in rows || x == r
  {
    var s := rows[..at] + [r] + rows[at..];
    assert s[at] == r;
    forall x | x in rows ensures x in s {
      var k :| 0 <= k < |rows| && rows[k] == x;
      assert s[if k < at then k else k + 1] == x;
    }
  }

  /** sort.Slice by sequence, on rows without repeats. */
  method SortBySequence(rows: seq<Row>) returns (sorted: seq<Row>)
    requires NoRepeats(rows)
    ensures Ascending(sorted) && NoRepeats(sorted) && |sorted| == |rows|
    ensures forall r :: r in sorted <==> r in rows
  {
    sorted := [];
    for i := 0 to |rows|
      invariant Ascending(sorted) && NoRepeats(sorted) && |sorted| == i
      invariant forall r :: r in sorted <==> r in rows[..i]
    {
      var at := 0;
      while at < |sorted| && sorted[at].sequence <= rows[i].sequence
        invariant at <= |sorted| && forall k :: 0 <= k < at ==> sorted[k].sequence <= rows[i].sequence
      {
        at := at + 1;
      }
      forall k | 0 <= k < |sorted| ensures sorted[k].id != rows[i].id {
        assert sorted[k] in rows[..i];
      }
      Inserted(sorted, at, rows[i]);
      sorted := sorted[..at] + [rows[i]] + sorted[at..];
      assert rows[..i + 1] == rows[..i] + [rows[i]];
    }
    assert rows[..|rows|] == rows;
  }

  predicate AllBelow(rows: seq<Row>, r: Row) {
    forall kept :: kept in rows ==> kept.sequence <= r.sequence
  }

  /** The duplicate-free union of the two answers in ascending sequence, cut to the lowest `maxInFlight` ones:
      nothing is invented, and what is missing is not below anything returned. */
  ghost predicate AreDue(insufficientFunds: seq<Row>, bumps: seq<Row>, maxInFlight: nat, etxs: seq<Row>) {
    && NoRepeats(etxs) && Ascending(etxs)
    && (forall r :: r in etxs ==> InUnion(insufficientFunds, bumps, r))
    && (maxInFlight > 0 ==> |etxs| <= maxInFlight)
    && (forall r :: InUnion(insufficientFunds, bumps, r) && r !in etxs ==>
          maxInFlight > 0 && |etxs| == maxInFlight && AllBelow(etxs, r))
  }

  method FindTxsRequiringRebroadcast(insufficientFunds: seq<Row>, bumps: seq<Row>, maxInFlight: nat)
      returns (etxs: seq<Row>)
    requires NoRepeats(insufficientFunds) && NoRepeats(bumps)
    ensures AreDue(insufficientFunds, bumps, maxInFlight, etxs)
  {
    var seen: set<int> := {};
    etxs := [];
    for i := 0 to |insufficientFunds|
      invariant etxs == insufficientFunds[..i]
      invariant forall id :: id in seen <==> exists r :: r in insufficientFunds[..i] && r.id == id
    {
      seen := seen + {insufficientFunds[i].id};
      assert insufficientFunds[..i + 1] == insufficientFunds[..i] + [insufficientFunds[i]];
      etxs := etxs + [insufficientFunds[i]];
    }
    assert insufficientFunds[..|insufficientFunds|] == insufficientFunds;
    for i := 0 to |bumps|
      invariant NoRepeats(etxs)
      invariant forall r :: r in etxs <==> InUnion(insufficientFunds, bumps[..i], r)
    {
      assert bumps[..i + 1] == bumps[..i] + [bumps[i]];
      if bumps[i].id !in seen {
        forall k | 0 <= k < |etxs| ensures etxs[k].id != bumps[i].id {
          assert etxs[k] in etxs;
          if etxs[k] !in insufficientFunds {
            var at :| 0 <= at < i && bumps[at] == etxs[k];
          }
        }
        etxs := etxs + [bumps[i]];
      }
    }
    assert bumps[..|bumps|] == bumps;
    etxs := SortBySequence(etxs);
    if maxInFlight > 0 && |etxs| > maxInFlight {
      ghost var all := etxs;
      etxs := etxs[..maxInFlight];
      forall r, kept | r in all && r !in etxs && kept in etxs ensures kept.sequence <= r.sequence {
        var i :| 0 <= i < |all| && all[i] == r;
        var j :| 0 <= j < |etxs| && etxs[j] == kept;
        assert i >= maxInFlight;
      }
    }
  }
}
