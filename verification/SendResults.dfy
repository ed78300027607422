/** Aggregation of the answers to one sent transaction (multinode/transaction_sender.go): grouped by code in a map,
    against a specification on the plain list of answers in the order of arrival. */
module SendResults {
  import opened Wrappers
  import opened ReturnCodes

  datatype SendTxResult = SendTxResult(res: string, code: SendTxReturnCode, error: Option<string>)

  datatype CriticalErr = Contradiction | NoResponse

  type ResultsByCode = map<SendTxReturnCode, seq<SendTxResult>>

  // ----- on the list of arrivals -----

  predicate Occurs(list: seq<SendTxResult>, code: SendTxReturnCode) {
    exists i :: 0 <= i < |list| && list[i].code == code
  }

  predicate AnyOccurs(list: seq<SendTxResult>, codes: seq<SendTxReturnCode>) {
    exists i :: 0 <= i < |list| && list[i].code in codes
  }

  ghost predicate EarliestAt(list: seq<SendTxResult>, code: SendTxReturnCode, i: int) {
    0 <= i < |list| && list[i].code == code && forall j :: 0 <= j < i ==> list[j].code != code
  }

  /** r is the earliest arrival with this code. */
  ghost predicate Earliest(list: seq<SendTxResult>, code: SendTxReturnCode, r: SendTxResult) {
    exists i :: EarliestAt(list, code, i) && list[i] == r
  }

  /** r is the earliest arrival of the first of the codes that occurs. */
  ghost predicate EarliestOfFirst(list: seq<SendTxResult>, codes: seq<SendTxReturnCode>, r: SendTxResult) {
    exists k :: 0 <= k < |codes| && Earliest(list, codes[k], r) && forall j :: 0 <= j < k ==> !Occurs(list, codes[j])
  }

  /** What the aggregation of a list of arrivals may answer. */
  ghost predicate Aggregates(list: seq<SendTxResult>, r: Option<SendTxResult>, critical: Option<CriticalErr>) {
    if list == [] then r == None && critical == Some(NoResponse)
    else
      && r.Some?
      && (critical == Some(Contradiction) <==> AnyOccurs(list, SUCCESSFUL_CODES) && AnyOccurs(list, SEVERE_CODES))
      && critical != Some(NoResponse)
      && (if AnyOccurs(list, SUCCESSFUL_CODES) then EarliestOfFirst(list, SUCCESSFUL_CODES, r.value)
          else if AnyOccurs(list, SEVERE_CODES) then EarliestOfFirst(list, SEVERE_CODES, r.value)
          else Earliest(list, r.value.code, r.value))
  }

  // ----- the map -----

  function OfCode(list: seq<SendTxResult>, code: SendTxReturnCode): seq<SendTxResult> {
    if list == [] then []
    else OfCode(list[..|list| - 1], code) + if list[|list| - 1].code == code then [list[|list| - 1]] else []
  }

  /** The map holds, under each code that occurs, its arrivals in order. */
  ghost predicate Groups(m: ResultsByCode, list: seq<SendTxResult>) {
    forall code :: (code in m <==> OfCode(list, code) != []) && (code in m ==> m[code] == OfCode(list, code))
  }

  lemma EarliestStays(list: seq<SendTxResult>, last: SendTxResult, code: SendTxReturnCode)
    ensures Occurs(list + [last], code) <==> Occurs(list, code) || last.code == code
    ensures forall i :: EarliestAt(list, code, i) ==> EarliestAt(list + [last], code, i)
    ensures !Occurs(list, code) && last.code == code ==> EarliestAt(list + [last], code, |list|)
  {
    var more := list + [last];
    assert more[|list|] == last && forall i :: 0 <= i < |list| ==> more[i] == list[i];
    if i :| 0 <= i < |list| && list[i].code == code { assert more[i].code == code; }
  }

  lemma {:induction false} FirstOfCode(list: seq<SendTxResult>, code: SendTxReturnCode)
    ensures Occurs(list, code) <==> OfCode(list, code) != []
    ensures OfCode(list, code) != [] ==> Earliest(list, code, OfCode(list, code)[0])
  {
    if list != [] {
      var before, last := list[..|list| - 1], list[|list| - 1];
      assert list == before + [last];
      FirstOfCode(before, code);
      EarliestStays(before, last, code);
    }
  }

  /** reportSendTxAnomalies and collectTxResults: each result is appended under its code. */
  method GroupByCode(list: seq<SendTxResult>) returns (m: ResultsByCode)
    ensures Groups(m, list)
  {
    m := map[];
    var i := 0;
    while i < |list|
      invariant 0 <= i <= |list|
      invariant Groups(m, list[..i])
    {
      var r := list[i];
      assert list[..i + 1][..i] == list[..i];
      m := m[r.code := (if r.code in m then m[r.code] else []) + [r]];
      i := i + 1;
    }
    assert list[..i] == list;
  }

  lemma PresentIffOccurs(m: ResultsByCode, list: seq<SendTxResult>, codes: seq<SendTxReturnCode>)
    requires Groups(m, list)
    ensures (exists k :: 0 <= k < |codes| && codes[k] in m) <==> AnyOccurs(list, codes)
  {
    if k :| 0 <= k < |codes| && codes[k] in m {
      FirstOfCode(list, codes[k]);
    }
    if i :| 0 <= i < |list| && list[i].code in codes {
      FirstOfCode(list, list[i].code);
      var k :| 0 <= k < |codes| && codes[k] == list[i].code;
      assert codes[k] in m;
    }
  }

  lemma FirstPresentIsEarliest(m: ResultsByCode, list: seq<SendTxResult>, codes: seq<SendTxReturnCode>, k: nat)
    requires Groups(m, list) && k < |codes| && codes[k] in m && forall j :: 0 <= j < k ==> codes[j] !in m
    ensures m[codes[k]] != [] && EarliestOfFirst(list, codes, m[codes[k]][0])
  {
    FirstOfCode(list, codes[k]);
    forall j | 0 <= j < k
      ensures !Occurs(list, codes[j])
    {
      FirstOfCode(list, codes[j]);
    }
  }

  /** findFirstIn, on a map that groups a list. */
  method FindFirstIn(m: ResultsByCode, keys: seq<SendTxReturnCode>, ghost list: seq<SendTxResult>)
      returns (v: seq<SendTxResult>, ok: bool)
    requires Groups(m, list)
    ensures ok <==> AnyOccurs(list, keys)
    ensures ok ==> v != [] && EarliestOfFirst(list, keys, v[0])
  {
    v, ok := [], false;
    for i := 0 to |keys|
      invariant !ok && forall j :: 0 <= j < i ==> keys[j] !in m
    {
      if keys[i] in m {
        PresentIffOccurs(m, list, keys);
        FirstPresentIsEarliest(m, list, keys, i);
        return m[keys[i]], true;
      }
    }
    PresentIffOccurs(m, list, keys);
  }

  /** aggregateTxResults agrees with the specification on the list of arrivals the map was made of. */
  method AggregateTxResults(m: ResultsByCode, ghost list: seq<SendTxResult>)
      returns (r: Option<SendTxResult>, critical: Option<CriticalErr>)
    requires Groups(m, list)
    ensures Aggregates(list, r, critical)
  {
    var severe, hasSevere := FindFirstIn(m, SEVERE_CODES, list);
    var success, hasSuccess := FindFirstIn(m, SUCCESSFUL_CODES, list);
    if hasSuccess {
      r := Some(success[0]);
      critical := if hasSevere then Some(Contradiction) else None;
      return;
    }
    if hasSevere { return Some(severe[0]), None; }
    if code :| code in m {
      FirstOfCode(list, code);
      return Some(m[code][0]), None;
    } else if list != [] {
      FirstOfCode(list, list[0].code);
    }
    return None, Some(NoResponse);
  }

  // ----- what callers rely on -----

  predicate Succeeds(r: Option<SendTxResult>) {
    r.Some? && r.value.code in SUCCESSFUL_CODES
  }

  /** The answer is one of those that arrived; it is a success exactly when some node accepted the transaction. */
  lemma AggregateIsAnArrival(list: seq<SendTxResult>, r: Option<SendTxResult>, critical: Option<CriticalErr>)
    requires Aggregates(list, r, critical) && list != []
    ensures r.value in list
    ensures Succeeds(r) <==> AnyOccurs(list, SUCCESSFUL_CODES)
    ensures r.value.code in SEVERE_CODES <==> AnyOccurs(list, SEVERE_CODES) && !AnyOccurs(list, SUCCESSFUL_CODES)
  {
    if AnyOccurs(list, SUCCESSFUL_CODES) {
      var k :| 0 <= k < |SUCCESSFUL_CODES| && Earliest(list, SUCCESSFUL_CODES[k], r.value);
      assert SUCCESSFUL_CODES[k] in SUCCESSFUL_CODES;
    } else if AnyOccurs(list, SEVERE_CODES) {
      var k :| 0 <= k < |SEVERE_CODES| && Earliest(list, SEVERE_CODES[k], r.value);
      assert SEVERE_CODES[k] in SEVERE_CODES;
    }
  }

  /** Further answers never turn a success into a failure, nor a contradiction into agreement. */
  lemma MoreNeverHurts(list: seq<SendTxResult>, more: seq<SendTxResult>,
                                r: Option<SendTxResult>, critical: Option<CriticalErr>,
                                r': Option<SendTxResult>, critical': Option<CriticalErr>)
    requires Aggregates(list, r, critical) && Aggregates(list + more, r', critical')
    ensures Succeeds(r) ==> Succeeds(r')
    ensures critical == Some(Contradiction) ==> critical' == Some(Contradiction)
  {
    if list != [] {
      OccursStays(list, more, SUCCESSFUL_CODES);
      OccursStays(list, more, SEVERE_CODES);
      AggregateIsAnArrival(list, r, critical);
      AggregateIsAnArrival(list + more, r', critical');
    }
  }

  lemma OccursStays(list: seq<SendTxResult>, more: seq<SendTxResult>, codes: seq<SendTxReturnCode>)
    ensures AnyOccurs(list, codes) ==> AnyOccurs(list + more, codes)
  {
    if i :| 0 <= i < |list| && list[i].code in codes {
      assert (list + more)[i].code in codes;
    }
  }
}
