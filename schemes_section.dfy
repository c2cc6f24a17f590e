/** The schemes section of the user-data aggregation: deduplication of the
    applied schemes by id, keeping the latest application, then one status block
    per remaining scheme, with its rejection reasons when it was rejected. */
module SchemesSection {
  import opened Common
  import opened ApiInputs

  // ---------------------------------------------------------------------
  // Deduplication by scheme id
  // ---------------------------------------------------------------------

  /** The date a scheme application is ranked by. */
  datatype Stamp = Stamp(instant: int, aware: bool)

  /** `datetime.min`: naive. */
  const Earliest: Stamp := Stamp(MinInstant, false)

  const CompareError: string := "can't compare offset-naive and offset-aware datetimes"
  const UnhashableError: string := "unhashable type"

  /** The parsed `applied_date`, or `datetime.min` when it is missing, empty or
      does not parse. */
  function StampOf(cal: Calendar, s: SchemeRecord): (r: Stamp)
    ensures !TruthyText(Get(s.appliedDate)) ==> r == Earliest
    ensures TruthyText(Get(s.appliedDate)) && ParseIso(cal, s.appliedDate.value).None? ==> r == Earliest
  {
    if TruthyText(Get(s.appliedDate)) then
      match ParseIso(cal, s.appliedDate.value)
      case Some(dt) => Stamp(dt.instant, dt.aware)
      case None => Earliest
    else Earliest
  }

  /** A decoded JSON value Python can use as a dict key. */
  predicate Hashable(j: Json) {
    !j.JArray? && !j.JObject?
  }

  /** The dict key a scheme id stands for: `True` and `1` are the same key. */
  function HashKey(j: Json): Json {
    if j == JBool(true) then JInt(1) else j
  }

  /** The key a scheme is deduplicated under; `None` for a falsy id, which is
      skipped. */
  function KeyOf(s: SchemeRecord): Option<Json> {
    if Truthy(s.schemeId) then Some(HashKey(s.schemeId)) else None
  }

  /** What the dict holds for one key: the scheme and the date it won with. */
  datatype Kept = Kept(scheme: SchemeRecord, stamp: Stamp)

  /** The `unique_schemes` dict: its keys in insertion order and its entries. */
  datatype Table = Table(order: seq<Json>, entries: map<Json, Kept>)

  predicate WellFormed(t: Table) {
    && (forall i, j :: 0 <= i < j < |t.order| ==> t.order[i] != t.order[j])
    && (forall k :: k in t.order ==> k in t.entries)
    && (forall k :: k in t.entries ==> k in t.order)
  }

  /** One iteration of the deduplication loop. A truthy unhashable id and a
      comparison of a naive with an aware date raise a TypeError. */
  function Step(cal: Calendar, t: Table, s: SchemeRecord): Result<Table, string> {
    if !Truthy(s.schemeId) then Ok(t)
    else if !Hashable(s.schemeId) then Err(UnhashableError)
    else
      var key := HashKey(s.schemeId);
      var kept := Kept(s, StampOf(cal, s));
      if key !in t.entries then Ok(Table(t.order + [key], t.entries[key := kept]))
      else if kept.stamp.aware != t.entries[key].stamp.aware then Err(CompareError)
      else if kept.stamp.instant > t.entries[key].stamp.instant then Ok(Table(t.order, t.entries[key := kept]))
      else Ok(t)
  }

  /** The dict after the loop has run over the first `n` schemes. */
  function DedupPrefix(cal: Calendar, list: seq<SchemeRecord>, n: nat): (r: Result<Table, string>)
    requires n <= |list|
    ensures r.Ok? ==> forall k :: k in r.value.order ==> k in r.value.entries
  {
    if n == 0 then Ok(Table([], map[]))
    else
      match DedupPrefix(cal, list, n - 1)
      case Err(e) => Err(e)
      case Ok(t) => Step(cal, t, list[n - 1])
  }

  /** The dict's keys are listed once each, and exactly its entries are listed. */
  lemma {:induction false} DedupWellFormed(cal: Calendar, list: seq<SchemeRecord>, n: nat)
    requires n <= |list| && DedupPrefix(cal, list, n).Ok?
    ensures WellFormed(DedupPrefix(cal, list, n).value)
  {
    if n > 0 {
      DedupWellFormed(cal, list, n - 1);
      StepWellFormed(cal, DedupPrefix(cal, list, n - 1).value, list[n - 1]);
    }
  }

  lemma StepWellFormed(cal: Calendar, t: Table, s: SchemeRecord)
    requires WellFormed(t) && Step(cal, t, s).Ok?
    ensures WellFormed(Step(cal, t, s).value)
  {
    var t' := Step(cal, t, s).value;
    if t'.order != t.order {
      var key := HashKey(s.schemeId);
      assert t'.order == t.order + [key] && key !in t.order;
      forall i, j | 0 <= i < j < |t'.order|
        ensures t'.order[i] != t'.order[j]
      {
        if j == |t.order| {
          assert t'.order[i] == t.order[i] && t.order[i] in t.order;
        }
      }
    }
  }

  /** `[v["data"] for v in unique_schemes.values()]`. */
  function Values(order: seq<Json>, entries: map<Json, Kept>): (r: seq<SchemeRecord>)
    requires forall k :: k in order ==> k in entries
    ensures |r| == |order|
    ensures forall i :: 0 <= i < |order| ==> r[i] == entries[order[i]].scheme
  {
    if order == [] then [] else Values(order[..|order| - 1], entries) + [entries[order[|order| - 1]].scheme]
  }

  /** The deduplicated schemes, or the error the loop raised. */
  function Dedup(cal: Calendar, list: seq<SchemeRecord>): Result<seq<SchemeRecord>, string> {
    match DedupPrefix(cal, list, |list|)
    case Err(e) => Err(e)
    case Ok(t) => Ok(Values(t.order, t.entries))
  }

  /** The body of the deduplication loop for scheme `k`, on the dict's keys
      and entries. */
  method DedupStep(cal: Calendar, list: seq<SchemeRecord>, k: nat, order: seq<Json>, entries: map<Json, Kept>)
    returns (r: Result<Table, string>)
    requires k < |list| && DedupPrefix(cal, list, k) == Ok(Table(order, entries))
    ensures r == DedupPrefix(cal, list, k + 1)
  {
    DedupPrefixStep(cal, list, k);
    var s := list[k];
    r := Ok(Table(order, entries));
    if Truthy(s.schemeId) {
      if !Hashable(s.schemeId) {
        return Err(UnhashableError);
      }
      var key := HashKey(s.schemeId);
      var stamp := StampOf(cal, s);
      if key !in entries {
        r := Ok(Table(order + [key], entries[key := Kept(s, stamp)]));
      } else {
        var previous := entries[key].stamp;
        if stamp.aware != previous.aware {
          return Err(CompareError);
        }
        if stamp.instant > previous.instant {
          r := Ok(Table(order, entries[key := Kept(s, stamp)]));
        }
      }
    }
  }

  /** The deduplication loop over the `unique_schemes` dict. */
  method DedupSchemes(cal: Calendar, list: seq<SchemeRecord>) returns (r: Result<seq<SchemeRecord>, string>)
    ensures r == Dedup(cal, list)
  {
    var order: seq<Json> := [];
    var entries: map<Json, Kept> := map[];
    var k := 0;
    while k < |list|
      invariant 0 <= k <= |list|
      invariant DedupPrefix(cal, list, k) == Ok(Table(order, entries))
    {
      var next := DedupStep(cal, list, k, order, entries);
      if next.Err? {
        ErrorPersists(cal, list, k + 1);
        return Err(next.error);
      }
      order, entries := next.value.order, next.value.entries;
      k := k + 1;
    }
    r := Ok(Values(order, entries));
  }

  /** The dict after one more scheme is the step applied to the dict before it. */
  lemma DedupPrefixStep(cal: Calendar, list: seq<SchemeRecord>, k: nat)
    requires k < |list| && DedupPrefix(cal, list, k).Ok?
    ensures DedupPrefix(cal, list, k + 1) == Step(cal, DedupPrefix(cal, list, k).value, list[k])
  {
  }

  /** Once the loop has raised, the section is left with that error. */
  lemma {:induction false} ErrorPersists(cal: Calendar, list: seq<SchemeRecord>, n: nat)
    requires n <= |list| && DedupPrefix(cal, list, n).Err?
    ensures DedupPrefix(cal, list, |list|) == DedupPrefix(cal, list, n)
    decreases |list| - n
  {
    if n < |list| {
      assert DedupPrefix(cal, list, n + 1) == DedupPrefix(cal, list, n);
      ErrorPersists(cal, list, n + 1);
    }
  }

  /** The key `key` is the id of one of the first `n` schemes. */
  predicate Occurs(list: seq<SchemeRecord>, n: nat, key: Json)
    requires n <= |list|
  {
    exists i :: 0 <= i < n && KeyOf(list[i]) == Some(key)
  }

  /** Scheme `w` is the one kept for `key` among the first `n`: every scheme with
      that key has a date of the same kind, those before `w` are strictly
      earlier and those after it are not later. */
  predicate KeptBest(cal: Calendar, list: seq<SchemeRecord>, n: nat, key: Json, w: nat)
    requires n <= |list|
  {
    && w < n && KeyOf(list[w]) == Some(key)
    && (forall i :: 0 <= i < n && KeyOf(list[i]) == Some(key) ==>
          && StampOf(cal, list[i]).aware == StampOf(cal, list[w]).aware
          && (i < w ==> StampOf(cal, list[i]).instant < StampOf(cal, list[w]).instant)
          && (w < i ==> StampOf(cal, list[i]).instant <= StampOf(cal, list[w]).instant))
  }

  /** The dict holds exactly the keys of the truthy ids seen so far. */
  lemma {:induction false} DedupKeys(cal: Calendar, list: seq<SchemeRecord>, n: nat)
    requires n <= |list| && DedupPrefix(cal, list, n).Ok?
    ensures forall key :: key in DedupPrefix(cal, list, n).value.entries <==> Occurs(list, n, key)
  {
    if n > 0 {
      DedupKeys(cal, list, n - 1);
      var t := DedupPrefix(cal, list, n - 1).value;
      var t' := DedupPrefix(cal, list, n).value;
      StepKeys(cal, t, list[n - 1], t');
      forall key
        ensures key in t'.entries <==> Occurs(list, n, key)
      {
        OccursStep(list, n, key);
      }
    }
  }

  /** A successful step adds the key of the scheme, if it has one, and no other. */
  lemma StepKeys(cal: Calendar, t: Table, s: SchemeRecord, t': Table)
    requires Step(cal, t, s) == Ok(t')
    ensures forall key :: key in t'.entries <==> key in t.entries || KeyOf(s) == Some(key)
  {
  }

  /** A key occurs among the first `n` schemes iff it occurs among the first
      `n - 1` or is that of scheme `n - 1`. */
  lemma OccursStep(list: seq<SchemeRecord>, n: nat, key: Json)
    requires 0 < n <= |list|
    ensures Occurs(list, n, key) <==> Occurs(list, n - 1, key) || KeyOf(list[n - 1]) == Some(key)
  {
    if Occurs(list, n, key) {
      var i :| 0 <= i < n && KeyOf(list[i]) == Some(key);
      if i < n - 1 {
        assert Occurs(list, n - 1, key);
      }
    }
    if Occurs(list, n - 1, key) {
      var i :| 0 <= i < n - 1 && KeyOf(list[i]) == Some(key);
      assert 0 <= i < n && KeyOf(list[i]) == Some(key);
    }
    if KeyOf(list[n - 1]) == Some(key) {
      assert 0 <= n - 1 < n && KeyOf(list[n - 1]) == Some(key);
    }
  }

  /** Every entry of `t` is the best-dated of the first `n` schemes with its key. */
  ghost predicate BestEntries(cal: Calendar, list: seq<SchemeRecord>, n: nat, t: Table)
    requires n <= |list|
  {
    forall key :: key in t.entries ==>
      exists w: nat :: KeptBest(cal, list, n, key, w) && t.entries[key] == Kept(list[w], StampOf(cal, list[w]))
  }

  /** Each kept entry is the best-dated scheme for its key, earliest on ties. */
  lemma {:induction false} DedupKeepsBest(cal: Calendar, list: seq<SchemeRecord>, n: nat)
    requires n <= |list| && DedupPrefix(cal, list, n).Ok?
    ensures BestEntries(cal, list, n, DedupPrefix(cal, list, n).value)
  {
    if n > 0 {
      StepShape(cal, list, n);
      DedupKeepsBest(cal, list, n - 1);
      DedupKeys(cal, list, n - 1);
      var t := DedupPrefix(cal, list, n - 1).value;
      var t' := DedupPrefix(cal, list, n).value;
      forall key | key in t'.entries
        ensures exists w: nat :: KeptBest(cal, list, n, key, w) && t'.entries[key] == Kept(list[w], StampOf(cal, list[w]))
      {
        BestEntryStep(cal, list, n, t, t', key);
      }
    }
  }

  /** How one step changes the entry of one key. */
  lemma BestEntryStep(cal: Calendar, list: seq<SchemeRecord>, n: nat, t: Table, t': Table, key: Json)
    requires 0 < n <= |list| && Step(cal, t, list[n - 1]) == Ok(t')
    requires BestEntries(cal, list, n - 1, t)
    requires forall k :: k in t.entries <==> Occurs(list, n - 1, k)
    requires key in t'.entries
    ensures exists w: nat :: KeptBest(cal, list, n, key, w) && t'.entries[key] == Kept(list[w], StampOf(cal, list[w]))
  {
    var s := list[n - 1];
    if key !in t.entries {
      assert KeyOf(s) == Some(key) && t'.entries[key] == Kept(s, StampOf(cal, s));
      KeptBestFirst(cal, list, n, key);
    } else {
      var w: nat :| KeptBest(cal, list, n - 1, key, w) && t.entries[key] == Kept(list[w], StampOf(cal, list[w]));
      if KeyOf(s) != Some(key) {
        assert t'.entries[key] == t.entries[key];
        KeptBestExtends(cal, list, n, key, w);
      } else if t'.entries[key] == t.entries[key] {
        KeptBestOnTie(cal, list, n, key, w);
      } else {
        assert t'.entries[key] == Kept(s, StampOf(cal, s));
        KeptBestReplaced(cal, list, n, key, w);
      }
    }
  }

  /** A scheme with another key leaves the best entry of `key` as it was. */
  lemma KeptBestExtends(cal: Calendar, list: seq<SchemeRecord>, n: nat, key: Json, w: nat)
    requires 0 < n <= |list| && KeptBest(cal, list, n - 1, key, w) && KeyOf(list[n - 1]) != Some(key)
    ensures KeptBest(cal, list, n, key, w)
  {
  }

  /** A scheme with the same key that is not later keeps the earlier winner. */
  lemma KeptBestOnTie(cal: Calendar, list: seq<SchemeRecord>, n: nat, key: Json, w: nat)
    requires 0 < n <= |list| && KeptBest(cal, list, n - 1, key, w) && KeyOf(list[n - 1]) == Some(key)
    requires StampOf(cal, list[n - 1]).aware == StampOf(cal, list[w]).aware
    requires StampOf(cal, list[n - 1]).instant <= StampOf(cal, list[w]).instant
    ensures KeptBest(cal, list, n, key, w)
  {
  }

  /** A strictly later scheme with the same key becomes the winner. */
  lemma KeptBestReplaced(cal: Calendar, list: seq<SchemeRecord>, n: nat, key: Json, w: nat)
    requires 0 < n <= |list| && KeptBest(cal, list, n - 1, key, w) && KeyOf(list[n - 1]) == Some(key)
    requires StampOf(cal, list[n - 1]).aware == StampOf(cal, list[w]).aware
    requires StampOf(cal, list[n - 1]).instant > StampOf(cal, list[w]).instant
    ensures KeptBest(cal, list, n, key, n - 1)
  {
  }

  /** The first scheme with a key is its winner so far. */
  lemma KeptBestFirst(cal: Calendar, list: seq<SchemeRecord>, n: nat, key: Json)
    requires 0 < n <= |list| && KeyOf(list[n - 1]) == Some(key) && !Occurs(list, n - 1, key)
    ensures KeptBest(cal, list, n, key, n - 1)
  {
  }

  /** Keys in `order` are listed in the order of their first occurrence among
      the first `n` schemes: wherever a later key occurs, an earlier key has
      already occurred before it. */
  predicate FirstOccurrenceOrder(list: seq<SchemeRecord>, n: nat, order: seq<Json>)
    requires n <= |list|
  {
    forall a, b, j :: 0 <= a < b < |order| && 0 <= j < n && KeyOf(list[j]) == Some(order[b]) ==>
      exists i :: 0 <= i < j && KeyOf(list[i]) == Some(order[a])
  }

  /** One step either leaves the key order alone or appends the key of a scheme
      whose id had not occurred before. */
  lemma StepShape(cal: Calendar, list: seq<SchemeRecord>, n: nat)
    requires 0 < n <= |list| && DedupPrefix(cal, list, n).Ok?
    ensures DedupPrefix(cal, list, n - 1).Ok?
    ensures var t := DedupPrefix(cal, list, n - 1).value;
      var t' := DedupPrefix(cal, list, n).value;
      || t'.order == t.order
      || (&& KeyOf(list[n - 1]).Some?
          && KeyOf(list[n - 1]).value !in t.entries
          && t'.order == t.order + [KeyOf(list[n - 1]).value])
  {
  }

  lemma FirstOccurrenceSameKeys(list: seq<SchemeRecord>, n: nat, order: seq<Json>)
    requires 0 < n <= |list| && FirstOccurrenceOrder(list, n - 1, order)
    requires forall k :: k in order ==> Occurs(list, n - 1, k)
    ensures FirstOccurrenceOrder(list, n, order)
  {
    forall a, b, j | 0 <= a < b < |order| && 0 <= j < n && KeyOf(list[j]) == Some(order[b])
      ensures exists i :: 0 <= i < j && KeyOf(list[i]) == Some(order[a])
    {
      if j == n - 1 {
        assert order[b] in order;
        assert Occurs(list, n - 1, order[b]);
        var j' :| 0 <= j' < n - 1 && KeyOf(list[j']) == Some(order[b]);
        var i :| 0 <= i < j' && KeyOf(list[i]) == Some(order[a]);
        assert 0 <= i < j && KeyOf(list[i]) == Some(order[a]);
      } else {
        var i :| 0 <= i < j && KeyOf(list[i]) == Some(order[a]);
      }
    }
  }

  lemma FirstOccurrenceAppend(list: seq<SchemeRecord>, n: nat, order: seq<Json>, x: Json)
    requires 0 < n <= |list| && FirstOccurrenceOrder(list, n - 1, order)
    requires forall k :: k in order ==> Occurs(list, n - 1, k)
    requires !Occurs(list, n - 1, x) && KeyOf(list[n - 1]) == Some(x)
    ensures FirstOccurrenceOrder(list, n, order + [x])
  {
    var o := order + [x];
    forall a, b, j | 0 <= a < b < |o| && 0 <= j < n && KeyOf(list[j]) == Some(o[b])
      ensures exists i :: 0 <= i < j && KeyOf(list[i]) == Some(o[a])
    {
      assert o[a] == order[a];
      if b < |order| {
        assert o[b] == order[b];
        FirstOccurrenceSameKeys(list, n, order);
      } else {
        assert o[b] == x;
        assert order[a] in order;
        assert Occurs(list, n - 1, order[a]);
      }
    }
  }

  /** The kept keys are in order of first occurrence. */
  lemma {:induction false} DedupOrder(cal: Calendar, list: seq<SchemeRecord>, n: nat)
    requires n <= |list| && DedupPrefix(cal, list, n).Ok?
    ensures FirstOccurrenceOrder(list, n, DedupPrefix(cal, list, n).value.order)
  {
    if n > 0 {
      StepShape(cal, list, n);
      DedupOrder(cal, list, n - 1);
      DedupKeys(cal, list, n - 1);
      var t := DedupPrefix(cal, list, n - 1).value;
      var t' := DedupPrefix(cal, list, n).value;
      assert forall k :: k in t.order ==> Occurs(list, n - 1, k);
      if t'.order == t.order {
        FirstOccurrenceSameKeys(list, n, t.order);
      } else {
        FirstOccurrenceAppend(list, n, t.order, KeyOf(list[n - 1]).value);
      }
    }
  }

  /** Position `k` of the result holds the scheme kept for the `k`-th key. */
  lemma DedupValueAt(cal: Calendar, list: seq<SchemeRecord>, k: nat)
    requires Dedup(cal, list).Ok? && k < |Dedup(cal, list).value|
    ensures var t := DedupPrefix(cal, list, |list|).value;
      && KeyOf(Dedup(cal, list).value[k]) == Some(t.order[k])
      && exists w: nat :: KeptBest(cal, list, |list|, t.order[k], w) && Dedup(cal, list).value[k] == list[w]
  {
    var t := DedupPrefix(cal, list, |list|).value;
    DedupKeepsBest(cal, list, |list|);
    assert t.order[k] in t.order;
    var w: nat :| KeptBest(cal, list, |list|, t.order[k], w) && t.entries[t.order[k]] == Kept(list[w], StampOf(cal, list[w]));
  }

  /** Deduplication keeps one scheme per truthy id: every kept scheme comes
      from the input with a truthy id, and no two share an id. */
  lemma DedupOnePerId(cal: Calendar, list: seq<SchemeRecord>)
    requires Dedup(cal, list).Ok?
    ensures forall k :: 0 <= k < |Dedup(cal, list).value| ==>
      KeyOf(Dedup(cal, list).value[k]).Some? && Dedup(cal, list).value[k] in list
    ensures forall a, b :: 0 <= a < b < |Dedup(cal, list).value| ==>
      KeyOf(Dedup(cal, list).value[a]) != KeyOf(Dedup(cal, list).value[b])
  {
    var r := Dedup(cal, list).value;
    var t := DedupPrefix(cal, list, |list|).value;
    DedupWellFormed(cal, list, |list|);
    forall k | 0 <= k < |r|
      ensures KeyOf(r[k]) == Some(t.order[k]) && r[k] in list
    {
      DedupValueAt(cal, list, k);
    }
  }

  /** Every truthy id of the input is kept. */
  lemma DedupKeepsEveryId(cal: Calendar, list: seq<SchemeRecord>, i: nat)
    requires Dedup(cal, list).Ok? && i < |list| && KeyOf(list[i]).Some?
    ensures exists k :: 0 <= k < |Dedup(cal, list).value| && KeyOf(Dedup(cal, list).value[k]) == KeyOf(list[i])
  {
    var r := Dedup(cal, list).value;
    var t := DedupPrefix(cal, list, |list|).value;
    DedupKeys(cal, list, |list|);
    DedupWellFormed(cal, list, |list|);
    var key := KeyOf(list[i]).value;
    assert Occurs(list, |list|, key);
    assert key in t.order;
    var k :| 0 <= k < |t.order| && t.order[k] == key;
    DedupValueAt(cal, list, k);
  }

  /** The kept schemes are listed in the order in which their ids first occur. */
  lemma DedupInFirstOccurrenceOrder(cal: Calendar, list: seq<SchemeRecord>)
    requires Dedup(cal, list).Ok?
    ensures var r := Dedup(cal, list).value;
      forall a, b, j :: 0 <= a < b < |r| && 0 <= j < |list| && KeyOf(list[j]) == KeyOf(r[b]) ==>
        exists i :: 0 <= i < j && KeyOf(list[i]) == KeyOf(r[a])
  {
    var r := Dedup(cal, list).value;
    var t := DedupPrefix(cal, list, |list|).value;
    DedupOrder(cal, list, |list|);
    forall a, b, j | 0 <= a < b < |r| && 0 <= j < |list| && KeyOf(list[j]) == KeyOf(r[b])
      ensures exists i :: 0 <= i < j && KeyOf(list[i]) == KeyOf(r[a])
    {
      DedupValueAt(cal, list, a);
      DedupValueAt(cal, list, b);
      assert KeyOf(list[j]) == Some(t.order[b]);
      var i :| 0 <= i < j && KeyOf(list[i]) == Some(t.order[a]);
    }
  }

  /** For each id, the kept scheme is dated no earlier than any other with that
      id, strictly later than every earlier one (so the first of equally dated
      schemes wins), and all its dates are of one kind, naive or aware. */
  lemma DedupKeepsLatest(cal: Calendar, list: seq<SchemeRecord>, k: nat)
    requires Dedup(cal, list).Ok? && k < |Dedup(cal, list).value|
    ensures KeyOf(Dedup(cal, list).value[k]).Some?
    ensures exists w: nat ::
      && KeptBest(cal, list, |list|, KeyOf(Dedup(cal, list).value[k]).value, w)
      && Dedup(cal, list).value[k] == list[w]
  {
    DedupValueAt(cal, list, k);
  }

  /** Deduplication raises exactly when a truthy id is unhashable or two schemes
      with the same id mix a naive and an aware date (a missing date counts as
      the naive `datetime.min`). */
  ghost predicate Comparable(cal: Calendar, list: seq<SchemeRecord>, n: nat)
    requires n <= |list|
  {
    IdsHashable(list, n) && KindsAgree(cal, list, n)
  }

  ghost predicate IdsHashable(list: seq<SchemeRecord>, n: nat)
    requires n <= |list|
  {
    forall i :: 0 <= i < n && Truthy(list[i].schemeId) ==> Hashable(list[i].schemeId)
  }

  ghost predicate KindsAgree(cal: Calendar, list: seq<SchemeRecord>, n: nat)
    requires n <= |list|
  {
    forall i, j :: 0 <= i < n && 0 <= j < n && KeyOf(list[i]).Some? && KeyOf(list[i]) == KeyOf(list[j]) ==>
      StampOf(cal, list[i]).aware == StampOf(cal, list[j]).aware
  }

  lemma DedupSucceedsExactly(cal: Calendar, list: seq<SchemeRecord>)
    ensures Dedup(cal, list).Ok? <==> Comparable(cal, list, |list|)
  {
    DedupSucceedsPrefix(cal, list, |list|);
  }

  lemma {:induction false} DedupSucceedsPrefix(cal: Calendar, list: seq<SchemeRecord>, n: nat)
    requires n <= |list|
    ensures DedupPrefix(cal, list, n).Ok? <==> Comparable(cal, list, n)
  {
    if n > 0 {
      DedupSucceedsPrefix(cal, list, n - 1);
      var s := list[n - 1];
      if DedupPrefix(cal, list, n - 1).Ok? {
        var t := DedupPrefix(cal, list, n - 1).value;
        DedupKeys(cal, list, n - 1);
        DedupKeepsBest(cal, list, n - 1);
        if DedupPrefix(cal, list, n).Ok? {
          StepKeepsComparable(cal, list, n, t);
        } else {
          StepBreaksComparable(cal, list, n, t);
        }
      } else if Comparable(cal, list, n) {
        ComparablePrefix(cal, list, n);
      }
    }
  }

  lemma ComparablePrefix(cal: Calendar, list: seq<SchemeRecord>, n: nat)
    requires 0 < n <= |list| && Comparable(cal, list, n)
    ensures Comparable(cal, list, n - 1)
  {
  }

  lemma StepKeepsComparable(cal: Calendar, list: seq<SchemeRecord>, n: nat, t: Table)
    requires 0 < n <= |list| && DedupPrefix(cal, list, n - 1) == Ok(t) && Comparable(cal, list, n - 1)
    requires BestEntries(cal, list, n - 1, t)
    requires forall k :: k in t.entries <==> Occurs(list, n - 1, k)
    requires Step(cal, t, list[n - 1]).Ok?
    ensures Comparable(cal, list, n)
  {
    StepKeepsHashable(cal, list, n, t);
    StepKeepsKinds(cal, list, n, t);
  }

  lemma StepKeepsHashable(cal: Calendar, list: seq<SchemeRecord>, n: nat, t: Table)
    requires 0 < n <= |list| && IdsHashable(list, n - 1)
    requires Step(cal, t, list[n - 1]).Ok?
    ensures IdsHashable(list, n)
  {
    forall i | 0 <= i < n && Truthy(list[i].schemeId)
      ensures Hashable(list[i].schemeId)
    {
      if i < n - 1 {
        assert Truthy(list[i].schemeId) ==> Hashable(list[i].schemeId);
      }
    }
  }

  lemma StepKeepsKinds(cal: Calendar, list: seq<SchemeRecord>, n: nat, t: Table)
    requires 0 < n <= |list| && DedupPrefix(cal, list, n - 1) == Ok(t) && KindsAgree(cal, list, n - 1)
    requires BestEntries(cal, list, n - 1, t)
    requires forall k :: k in t.entries <==> Occurs(list, n - 1, k)
    requires Step(cal, t, list[n - 1]).Ok?
    ensures KindsAgree(cal, list, n)
  {
    forall i, j | 0 <= i < n && 0 <= j < n && KeyOf(list[i]).Some? && KeyOf(list[i]) == KeyOf(list[j])
      ensures StampOf(cal, list[i]).aware == StampOf(cal, list[j]).aware
    {
      if i < n - 1 && j < n - 1 {
        assert StampOf(cal, list[i]).aware == StampOf(cal, list[j]).aware;
      } else if i < n - 1 {
        SameKindAsLast(cal, list, n, t, i);
      } else if j < n - 1 {
        SameKindAsLast(cal, list, n, t, j);
      }
    }
  }

  /** An earlier scheme with the id of the one a successful step added has a
      date of the same kind. */
  lemma SameKindAsLast(cal: Calendar, list: seq<SchemeRecord>, n: nat, t: Table, i: nat)
    requires 0 < n <= |list| && DedupPrefix(cal, list, n - 1) == Ok(t)
    requires BestEntries(cal, list, n - 1, t)
    requires forall k :: k in t.entries <==> Occurs(list, n - 1, k)
    requires Step(cal, t, list[n - 1]).Ok?
    requires i < n - 1 && KeyOf(list[i]).Some? && KeyOf(list[i]) == KeyOf(list[n - 1])
    ensures StampOf(cal, list[i]).aware == StampOf(cal, list[n - 1]).aware
  {
    var key := KeyOf(list[i]).value;
    assert Occurs(list, n - 1, key);
    var w: nat :| KeptBest(cal, list, n - 1, key, w) && t.entries[key] == Kept(list[w], StampOf(cal, list[w]));
  }

  lemma StepBreaksComparable(cal: Calendar, list: seq<SchemeRecord>, n: nat, t: Table)
    requires 0 < n <= |list| && DedupPrefix(cal, list, n - 1) == Ok(t)
    requires BestEntries(cal, list, n - 1, t)
    requires Step(cal, t, list[n - 1]).Err?
    ensures !Comparable(cal, list, n)
  {
    var s := list[n - 1];
    if Truthy(s.schemeId) && Hashable(s.schemeId) {
      var key := HashKey(s.schemeId);
      var w: nat :| KeptBest(cal, list, n - 1, key, w) && t.entries[key] == Kept(list[w], StampOf(cal, list[w]));
      assert StampOf(cal, s).aware != StampOf(cal, list[w]).aware;
      assert KeyOf(list[w]) == KeyOf(list[n - 1]);
    }
  }

  // ---------------------------------------------------------------------
  // Rejection reasons
  // ---------------------------------------------------------------------

  predicate HasReason(r: ReasonRecord) {
    TruthyText(r.rejectionReason)
  }

  function ReasonText(r: ReasonRecord): string {
    Show(r.rejectionReason)
  }

  /** `[r["rejection_reason"] for r in data if r.get("rejection_reason")]`. */
  function RejectionReasons(data: seq<ReasonRecord>): seq<string> {
    Map(ReasonText, Filter(HasReason, data))
  }

  /** The reasons loop over a rejection-reason reply. */
  method CollectReasons(data: seq<ReasonRecord>) returns (reasons: seq<string>)
    ensures reasons == RejectionReasons(data)
  {
    reasons := [];
    var k := 0;
    while k < |data|
      invariant 0 <= k <= |data|
      invariant reasons == RejectionReasons(data[..k])
    {
      assert data[..k + 1] == data[..k] + [data[k]];
      FilterAppend(HasReason, data[..k], [data[k]]);
      assert Filter(HasReason, [data[k]]) == if HasReason(data[k]) then [data[k]] else [] by {
        assert [data[k]][1..] == [];
      }
      if HasReason(data[k]) {
        MapSnoc(ReasonText, Filter(HasReason, data[..k]), data[k]);
        reasons := reasons + [ReasonText(data[k])];
      } else {
        assert Filter(HasReason, data[..k] + [data[k]]) == Filter(HasReason, data[..k]);
      }
      k := k + 1;
    }
    assert data[..k] == data;
  }

  /** The reasons are exactly the non-empty `rejection_reason` values of the
      reply, in reply order. */
  lemma RejectionReasonsExact(data: seq<ReasonRecord>)
    ensures |RejectionReasons(data)| <= |data|
    ensures forall x :: x in RejectionReasons(data) <==> x != "" && ReasonRecord(Some(x)) in data
  {
    var kept := Filter(HasReason, data);
    forall x
      ensures x in RejectionReasons(data) <==> x != "" && ReasonRecord(Some(x)) in data
    {
      if x in RejectionReasons(data) {
        var k :| 0 <= k < |kept| && Map(ReasonText, kept)[k] == x;
        MapIndex(ReasonText, kept, k);
        assert kept[k] in kept;
        assert kept[k] == ReasonRecord(Some(x));
      }
      if x != "" && ReasonRecord(Some(x)) in data {
        var r := ReasonRecord(Some(x));
        assert r in kept;
        var k :| 0 <= k < |kept| && kept[k] == r;
        MapIndex(ReasonText, kept, k);
        assert Map(ReasonText, kept)[k] == x;
      }
    }
  }

  /** The reasons a rejection-reason call yields: none when it raised, did not
      decode or did not report success. */
  function FetchedReasons(call: Call<ReasonsBody>): (r: seq<string>)
    ensures !(call.Answered? && call.body.Ok? && call.body.value.success) ==> r == []
  {
    match call
    case Answered(_, _, Ok(body)) => if body.success then RejectionReasons(body.data) else []
    case _ => []
  }

  // ---------------------------------------------------------------------
  // One status block per kept scheme
  // ---------------------------------------------------------------------

  const StatusCheckFailed: string := "Status check failed"
  const UnknownScheme: string := "Unknown Scheme"

  /** The `info_block` of a scheme, or the short block left when building it
      raised; a name of `None` is a `null` `scheme_name`. */
  datatype SchemeInfo =
    | Fetched(name: Option<string>, appliedDate: string, statusDetails: string, rejectionReasons: Option<string>)
    | Unfetched(name: Option<string>)

  /** `scheme.get("scheme_name", "Unknown Scheme")`. */
  function SchemeName(s: SchemeRecord): Option<string> {
    GetOr(s.schemeName, UnknownScheme)
  }

  /** `date.split("T")[0]`: the part of the date before its first 'T'. */
  function AppliedDay(date: string): (r: string)
    ensures 'T' !in r
    ensures StartsWith(date, r)
  {
    SplitFirstIsPrefix(date, 'T');
    Split(date, 'T')[0]
  }

  function StatusText(item: StatusItem): string {
    "Application Status: " + Show(item.applicationStatus) + ". (" + Show(item.status) + ")"
  }

  /** Whether the first status item asks for the rejection reasons. */
  predicate AsksForReasons(item: StatusItem) {
    item.applicationStatus == Some("Rejected") && Truthy(item.id)
  }

  /** The block for one kept scheme, given the backend's replies. A `null`
      `applied_date` makes `.split` raise while the block is built, which the
      same handler as a failed status call catches. */
  function SchemeInfoOf(b: Backend, s: SchemeRecord): SchemeInfo {
    match b.schemeStatus(s.schemeId, s.applicationCode)
    case Answered(_, _, Ok(body)) =>
      (match GetOr(s.appliedDate, "")
       case None => Unfetched(SchemeName(s))
       case Some(date) =>
         if body.success && body.items != [] then
           var item := body.items[0];
           var reasons := if AsksForReasons(item) then FetchedReasons(b.schemeReasons(item.id)) else [];
           Fetched(SchemeName(s), AppliedDay(date), StatusText(item),
                   if reasons == [] then None else Some(Join(reasons, "; ")))
         else Fetched(SchemeName(s), AppliedDay(date), StatusCheckFailed, None))
    case _ => Unfetched(SchemeName(s))
  }

  function InfoFor(b: Backend): SchemeRecord -> SchemeInfo {
    (s: SchemeRecord) => SchemeInfoOf(b, s)
  }

  /** The status loop: one block per kept scheme, in order. */
  method BuildSchemeInfos(b: Backend, processed: seq<SchemeRecord>) returns (infos: seq<SchemeInfo>)
    ensures infos == Map(InfoFor(b), processed)
  {
    infos := [];
    var k := 0;
    while k < |processed|
      invariant 0 <= k <= |processed|
      invariant infos == Map(InfoFor(b), processed[..k])
    {
      assert processed[..k + 1] == processed[..k] + [processed[k]];
      MapSnoc(InfoFor(b), processed[..k], processed[k]);
      var info := SchemeInfoOf(b, processed[k]);
      infos := infos + [info];
      k := k + 1;
    }
    assert processed[..k] == processed;
  }

  /** A block lacks its status details exactly when the status call raised, its
      reply did not decode, or `applied_date` is `null`. Its name is the
      scheme's name, "Unknown Scheme" when missing and `None` when `null`. */
  lemma UnfetchedExactly(b: Backend, s: SchemeRecord)
    ensures SchemeInfoOf(b, s).Unfetched? <==>
      || b.schemeStatus(s.schemeId, s.applicationCode).Raised?
      || b.schemeStatus(s.schemeId, s.applicationCode).body.Err?
      || s.appliedDate.Null?
    ensures SchemeInfoOf(b, s).name == SchemeName(s)
    ensures SchemeInfoOf(b, s).name.None? <==> s.schemeName.Null?
    ensures s.schemeName.Absent? ==> SchemeInfoOf(b, s).name == Some(UnknownScheme)
    ensures SchemeInfoOf(b, s).Fetched? && s.appliedDate.Absent? ==> SchemeInfoOf(b, s).appliedDate == ""
  {
  }

  /** The status details are "Status check failed" exactly when a decoded reply
      reports no success or no items; otherwise they quote the first item. */
  lemma StatusDetailsCases(b: Backend, s: SchemeRecord)
    requires SchemeInfoOf(b, s).Fetched?
    ensures var body := b.schemeStatus(s.schemeId, s.applicationCode).body.value;
      && (SchemeInfoOf(b, s).statusDetails == StatusCheckFailed <==> !(body.success && body.items != []))
      && (body.success && body.items != [] ==> SchemeInfoOf(b, s).statusDetails == StatusText(body.items[0]))
  {
    var call := b.schemeStatus(s.schemeId, s.applicationCode);
    assert call.Answered? && call.body.Ok? && !s.appliedDate.Null?;
    var body := call.body.value;
    if body.success && body.items != [] {
      assert SchemeInfoOf(b, s).statusDetails == StatusText(body.items[0]);
      assert StatusText(body.items[0])[..5] == "Appli";
    } else {
      assert SchemeInfoOf(b, s).statusDetails == StatusCheckFailed;
    }
  }

  /** Rejection reasons are attached only to a rejected application with a
      truthy avail id, and are then the reasons its reply reports, joined by "; ". */
  lemma ReasonsOnlyWhenRejected(b: Backend, s: SchemeRecord)
    requires SchemeInfoOf(b, s).Fetched? && SchemeInfoOf(b, s).rejectionReasons.Some?
    ensures var body := b.schemeStatus(s.schemeId, s.applicationCode).body.value;
      && body.success && body.items != [] && AsksForReasons(body.items[0])
      && FetchedReasons(b.schemeReasons(body.items[0].id)) != []
      && SchemeInfoOf(b, s).rejectionReasons.value == Join(FetchedReasons(b.schemeReasons(body.items[0].id)), "; ")
  {
  }

  // ---------------------------------------------------------------------
  // The section
  // ---------------------------------------------------------------------

  /** What `aggregated_data["schemes"]` ends up holding: `None`, the text
      "No schemes applied.", or `{"data": [...]}`. */
  datatype SchemesValue = NoSchemes | NoneApplied | SchemeData(infos: seq<SchemeInfo>)

  const NoSchemesApplied: string := "No schemes applied."

  /** The schemes value and the `schemes_error` key of the section. */
  datatype SchemesOutcome = SchemesOutcome(value: SchemesValue, error: Option<string>)

  function SchemesSectionOf(b: Backend, cal: Calendar): SchemesOutcome {
    match b.schemes
    case Raised(message) => SchemesOutcome(NoSchemes, Some(message))
    case Answered(code, text, body) =>
      if code != 200 then SchemesOutcome(NoSchemes, Some(text))
      else match body
        case Err(message) => SchemesOutcome(NoSchemes, Some(message))
        case Ok(list) =>
          if list == [] then SchemesOutcome(NoneApplied, None)
          else match Dedup(cal, list)
            case Err(message) => SchemesOutcome(NoSchemes, Some(message))
            case Ok(processed) => SchemesOutcome(SchemeData(Map(InfoFor(b), processed)), None)
  }

  /** The schemes section as the code runs it: the deduplication loop, then the
      status loop. */
  method FetchSchemes(b: Backend, cal: Calendar) returns (outcome: SchemesOutcome)
    ensures outcome == SchemesSectionOf(b, cal)
  {
    match b.schemes
    case Raised(message) =>
      outcome := SchemesOutcome(NoSchemes, Some(message));
    case Answered(code, text, body) =>
      if code != 200 {
        outcome := SchemesOutcome(NoSchemes, Some(text));
      } else if body.Err? {
        outcome := SchemesOutcome(NoSchemes, Some(body.error));
      } else if body.value == [] {
        outcome := SchemesOutcome(NoneApplied, None);
      } else {
        var processed := DedupSchemes(cal, body.value);
        if processed.Err? {
          outcome := SchemesOutcome(NoSchemes, Some(processed.error));
        } else {
          var infos := BuildSchemeInfos(b, processed.value);
          outcome := SchemesOutcome(SchemeData(infos), None);
        }
      }
  }

  /** The section sets its error key exactly when it leaves no schemes value. */
  lemma SchemesErrorExclusive(b: Backend, cal: Calendar)
    ensures SchemesSectionOf(b, cal).error.Some? <==> SchemesSectionOf(b, cal).value == NoSchemes
  {
  }

  /** With a decoded 200 reply, the section lists one block per distinct truthy
      id, and fails only when deduplication raises. */
  lemma SchemesOneBlockPerId(b: Backend, cal: Calendar)
    requires b.schemes.Answered? && b.schemes.code == 200 && b.schemes.body.Ok? && b.schemes.body.value != []
    ensures SchemesSectionOf(b, cal).error.Some? <==> !Comparable(cal, b.schemes.body.value, |b.schemes.body.value|)
    ensures SchemesSectionOf(b, cal).value.SchemeData? ==>
      |SchemesSectionOf(b, cal).value.infos| == |Dedup(cal, b.schemes.body.value).value|
  {
    DedupSucceedsExactly(cal, b.schemes.body.value);
  }
}
