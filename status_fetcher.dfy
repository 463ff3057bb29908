/** The item loop of `get_dsl_info`: the decoded `Status.json` array is turned
    into a flat snapshot dictionary. The HTTP request and JSON decoding are
    outside this module; it starts from the decoded items. */
module StatusFetcher {
  import opened Wrappers
  import opened PyValues

  /** One object of the status array; each key may be missing. */
  datatype StatusItem = StatusItem(vartype: Option<JsonValue>, varid: Option<JsonValue>, varvalue: Option<JsonValue>)

  /** A value stored in the snapshot dictionary. */
  datatype FieldValue = IntField(n: int) | BoolField(b: bool)

  /** The `result` dictionary. */
  type Snapshot = map<string, FieldValue>

  /** `int(...)` raised on the `varvalue` of this item; the whole call fails. */
  datatype NormaliseError = NotAnInteger(item: StatusItem)

  type Normalised = Result<Snapshot, NormaliseError>

  const SnapshotKeys: set<string> := {"downstream", "upstream", "link", "online", "connected"}

  predicate IsIntKey(k: string) { k == "downstream" || k == "upstream" }

  /** Keys and value types a snapshot may hold: the two rates are ints, the
      three status flags bools. */
  predicate WellTyped(m: Snapshot) {
    forall k :: k in m ==> k in SnapshotKeys && (IsIntKey(k) <==> m[k].IntField?)
  }

  /** Only items tagged "value" or "status" are looked at. */
  predicate Eligible(it: StatusItem) {
    it.vartype == Some(JStr("value")) || it.vartype == Some(JStr("status"))
  }

  /** The identifier table: the snapshot key a `varid` writes, if any. */
  function TargetKey(varid: Option<JsonValue>): (k: Option<string>)
    ensures k.Some? ==> k.value in SnapshotKeys
  {
    if varid == Some(JStr("dsl_downstream")) then Some("downstream")
    else if varid == Some(JStr("dsl_upstream")) then Some("upstream")
    else if varid == Some(JStr("dsl_link_status")) then Some("link")
    else if varid == Some(JStr("onlinestatus")) then Some("online")
    else if varid == Some(JStr("status")) then Some("connected")
    else None
  }

  /** The value written for key `k` from an item's (possibly missing)
      `varvalue`: `int(item.get("varvalue", "0"))` for the rates,
      `str(item.get("varvalue", "")) == "online"` for the flags. `None` where
      `int` raises. Only a rate can raise; a rate gives an int, a flag a
      bool. */
  function Coerce(k: string, varvalue: Option<JsonValue>): (r: Option<FieldValue>)
    ensures r.None? ==> IsIntKey(k)
    ensures r.Some? ==> (r.value.IntField? <==> IsIntKey(k))
  {
    if IsIntKey(k) then
      match PyInt(varvalue.GetOr(JStr("0")))
      case Some(n) => Some(IntField(n))
      case None => None
    else
      Some(BoolField(PyStr(varvalue.GetOr(JStr(""))) == "online"))
  }

  /** The item writes key `k` (it may still fail to convert). */
  predicate Writes(it: StatusItem, k: string) {
    Eligible(it) && TargetKey(it.varid) == Some(k)
  }

  /** The item makes `int()` raise. */
  predicate Unconvertible(it: StatusItem) {
    Eligible(it) && TargetKey(it.varid).Some? && Coerce(TargetKey(it.varid).value, it.varvalue).None?
  }

  /** An item that can never change the result. */
  predicate Inert(it: StatusItem) {
    !Eligible(it) || TargetKey(it.varid).None?
  }

  /** Reference definition of one loop iteration, table driven. A failure
      stays; a new failure is this item's `int()` raising; an inert item
      changes nothing, and any other item that converts leaves its key
      present. */
  function Step(acc: Normalised, it: StatusItem): (r: Normalised)
    ensures acc.Failure? ==> r == acc
    ensures acc.Success? && r.Failure? ==> r.error == NotAnInteger(it) && Unconvertible(it)
    ensures Inert(it) ==> r == acc
    ensures r.Success? && !Inert(it) ==> TargetKey(it.varid).value in r.value
  {
    if acc.Failure? || !Eligible(it) then acc
    else match TargetKey(it.varid)
      case None => acc
      case Some(k) =>
        match Coerce(k, it.varvalue)
        case None => Failure(NotAnInteger(it))
        case Some(v) => Success(acc.value[k := v])
  }

  /** Reference definition of the loop: the steps applied in array order. A
      failure it raises names one of the items, one that makes `int()`
      raise. */
  function NormaliseFrom(acc: Normalised, items: seq<StatusItem>): (r: Normalised)
    ensures acc.Success? && r.Failure? ==>
              exists i :: 0 <= i < |items| && r.error == NotAnInteger(items[i]) && Unconvertible(items[i])
    decreases |items|
  {
    if items == [] then acc
    else
      var front := items[..|items| - 1];
      assert forall i :: 0 <= i < |front| ==> front[i] == items[i];
      Step(NormaliseFrom(acc, front), items[|items| - 1])
  }

  /** What `get_dsl_info` returns, or the exception it raises, for a decoded
      array: the exception names an item of the array whose `int()` raised. */
  function Normalise(items: seq<StatusItem>): (r: Normalised)
    ensures r.Failure? ==>
              exists i :: 0 <= i < |items| && r.error == NotAnInteger(items[i]) && Unconvertible(items[i])
  {
    NormaliseFrom(Success(map[]), items)
  }

  /** The loop of `get_dsl_info`, building `result` in place. */
  method GetDslInfo(items: seq<StatusItem>) returns (r: Normalised)
    ensures r == Normalise(items)
  {
    var result: Snapshot := map[];
    var i := 0;
    while i < |items|
      invariant 0 <= i <= |items|
      invariant Normalise(items[..i]) == Success(result)
    {
      var item := items[i];
      NormaliseSnoc(items, i);
      if item.vartype != Some(JStr("value")) && item.vartype != Some(JStr("status")) {
        i := i + 1;
        continue;
      }
      var vid := item.varid;
      if vid == Some(JStr("dsl_downstream")) {
        var n := PyInt(item.varvalue.GetOr(JStr("0")));
        RateStep(result, item, "downstream");
        if n.None? {
          r := Failure(NotAnInteger(item));
          FailureIsFinal(items, i + 1, r.error);
          return;
        }
        result := result["downstream" := IntField(n.value)];
      } else if vid == Some(JStr("dsl_upstream")) {
        var n := PyInt(item.varvalue.GetOr(JStr("0")));
        RateStep(result, item, "upstream");
        if n.None? {
          r := Failure(NotAnInteger(item));
          FailureIsFinal(items, i + 1, r.error);
          return;
        }
        result := result["upstream" := IntField(n.value)];
      } else if vid == Some(JStr("dsl_link_status")) {
        FlagStep(result, item, "link");
        result := result["link" := BoolField(PyStr(item.varvalue.GetOr(JStr(""))) == "online")];
      } else if vid == Some(JStr("onlinestatus")) {
        FlagStep(result, item, "online");
        result := result["online" := BoolField(PyStr(item.varvalue.GetOr(JStr(""))) == "online")];
      } else if vid == Some(JStr("status")) {
        FlagStep(result, item, "connected");
        result := result["connected" := BoolField(PyStr(item.varvalue.GetOr(JStr(""))) == "online")];
      } else {
        assert Inert(item);
      }
      i := i + 1;
    }
    assert items[..i] == items;
    r := Success(result);
  }

  /** The step for an eligible item that writes a rate key. */
  lemma {:induction false} RateStep(acc: Snapshot, it: StatusItem, k: string)
    requires Eligible(it) && TargetKey(it.varid) == Some(k) && IsIntKey(k)
    ensures PyInt(it.varvalue.GetOr(JStr("0"))).None? ==> Step(Success(acc), it) == Failure(NotAnInteger(it))
    ensures PyInt(it.varvalue.GetOr(JStr("0"))).Some? ==>
              Step(Success(acc), it) == Success(acc[k := IntField(PyInt(it.varvalue.GetOr(JStr("0"))).value)])
  {
  }

  /** The step for an eligible item that writes a flag key. */
  lemma {:induction false} FlagStep(acc: Snapshot, it: StatusItem, k: string)
    requires Eligible(it) && TargetKey(it.varid) == Some(k) && !IsIntKey(k)
    ensures Step(Success(acc), it) == Success(acc[k := BoolField(PyStr(it.varvalue.GetOr(JStr(""))) == "online")])
  {
  }

  /** One more item is one more step of the fold. */
  lemma {:induction false} NormaliseSnoc(items: seq<StatusItem>, i: nat)
    requires i < |items|
    ensures Normalise(items[..i + 1]) == Step(Normalise(items[..i]), items[i])
  {
    assert items[..i + 1][..i] == items[..i];
  }

  /** Splitting the array splits the fold. */
  lemma {:induction false} NormaliseFromAppend(acc: Normalised, p: seq<StatusItem>, q: seq<StatusItem>)
    ensures NormaliseFrom(acc, p + q) == NormaliseFrom(NormaliseFrom(acc, p), q)
    decreases |q|
  {
    if q == [] {
      assert p + q == p;
    } else {
      assert (p + q)[..|p + q| - 1] == p + q[..|q| - 1];
      NormaliseFromAppend(acc, p, q[..|q| - 1]);
    }
  }

  /** Once an item has raised, nothing later is looked at. */
  lemma {:induction false} FailureSticks(e: NormaliseError, q: seq<StatusItem>)
    ensures NormaliseFrom(Failure(e), q) == Failure(e)
    decreases |q|
  {
    if q != [] {
      FailureSticks(e, q[..|q| - 1]);
    }
  }

  lemma {:induction false} FailureIsFinal(items: seq<StatusItem>, i: nat, e: NormaliseError)
    requires i <= |items| && Normalise(items[..i]) == Failure(e)
    ensures Normalise(items) == Failure(e)
  {
    assert items == items[..i] + items[i..];
    NormaliseFromAppend(Success(map[]), items[..i], items[i..]);
    FailureSticks(e, items[i..]);
  }

  /** Only the five snapshot keys can appear, each with its type. */
  lemma {:induction false} OnlySnapshotKeys(items: seq<StatusItem>)
    ensures Normalise(items).Success? ==> WellTyped(Normalise(items).value)
    decreases |items|
  {
    if items != [] {
      OnlySnapshotKeys(items[..|items| - 1]);
    }
  }

  /** An item that is not tagged "value"/"status", or whose `varid` is not in
      the identifier table, changes nothing wherever it stands. */
  lemma {:induction false} InertItemIgnored(a: seq<StatusItem>, it: StatusItem, b: seq<StatusItem>)
    requires Inert(it)
    ensures Normalise(a + [it] + b) == Normalise(a + b)
  {
    NormaliseFromAppend(Success(map[]), a + [it], b);
    NormaliseFromAppend(Success(map[]), a, b);
    assert (a + [it])[..|a + [it]| - 1] == a;
  }

  /** The items that pass the type filter, in order. */
  function EligibleOnly(items: seq<StatusItem>): (r: seq<StatusItem>)
    ensures forall i :: 0 <= i < |r| ==> Eligible(r[i])
  {
    if items == [] then []
    else if Eligible(items[|items| - 1]) then EligibleOnly(items[..|items| - 1]) + [items[|items| - 1]]
    else EligibleOnly(items[..|items| - 1])
  }

  /** Removing the items the type filter skips gives the same result. */
  lemma {:induction false} TypeFilter(items: seq<StatusItem>)
    ensures Normalise(EligibleOnly(items)) == Normalise(items)
    decreases |items|
  {
    if items != [] {
      var p := items[..|items| - 1];
      var x := items[|items| - 1];
      TypeFilter(p);
      if Eligible(x) {
        var f := EligibleOnly(p) + [x];
        assert f[..|f| - 1] == EligibleOnly(p);
      }
    }
  }

  /** `i` is the last item of the array that writes key `k`. */
  predicate LastWriter(items: seq<StatusItem>, i: int, k: string) {
    0 <= i < |items| && Writes(items[i], k) && forall j :: i < j < |items| ==> !Writes(items[j], k)
  }

  /** A key is present exactly when some item writes it. */
  lemma {:induction false} PresentIffWritten(items: seq<StatusItem>, k: string)
    requires Normalise(items).Success?
    ensures k in Normalise(items).value <==> exists i :: 0 <= i < |items| && Writes(items[i], k)
    decreases |items|
  {
    if items != [] {
      var n := |items| - 1;
      var p := items[..n];
      assert items[..n + 1] == items;
      NormaliseSnoc(items, n);
      assert Normalise(p).Success?;
      PresentIffWritten(p, k);
      if Writes(items[n], k) {
        StepOnKey(Normalise(p), items[n], k);
      } else {
        StepOffKey(Normalise(p), items[n], k);
      }
      if !Writes(items[n], k) && exists i :: 0 <= i < |items| && Writes(items[i], k) {
        var i :| 0 <= i < |items| && Writes(items[i], k);
        assert p[i] == items[i];
      }
      if exists i :: 0 <= i < |p| && Writes(p[i], k) {
        var i :| 0 <= i < |p| && Writes(p[i], k);
        assert p[i] == items[i];
      }
    }
  }

  /** Last write wins: a key's value is the one converted from the last item
      that writes it. */
  lemma {:induction false} LastWriteWins(items: seq<StatusItem>, k: string)
    requires Normalise(items).Success? && k in Normalise(items).value
    ensures exists i :: LastWriter(items, i, k) && Coerce(k, items[i].varvalue) == Some(Normalise(items).value[k])
    decreases |items|
  {
    var n := |items| - 1;
    var p := items[..n];
    var x := items[n];
    assert items[..n + 1] == items;
    NormaliseSnoc(items, n);
    if Writes(x, k) {
      StepOnKey(Normalise(p), x, k);
      assert LastWriter(items, n, k);
    } else {
      StepOffKey(Normalise(p), x, k);
      LastWriteWins(p, k);
      var i :| LastWriter(p, i, k) && Coerce(k, p[i].varvalue) == Some(Normalise(p).value[k]);
      LastWriterExtends(items, i, k);
    }
  }

  /** A last writer of the front stays the last writer when the final item
      does not write the key. */
  lemma {:induction false} LastWriterExtends(items: seq<StatusItem>, i: int, k: string)
    requires items != [] && LastWriter(items[..|items| - 1], i, k) && !Writes(items[|items| - 1], k)
    ensures LastWriter(items, i, k) && items[i] == items[..|items| - 1][i]
  {
    var p := items[..|items| - 1];
    forall j | i < j < |items| ensures !Writes(items[j], k) {
      if j < |items| - 1 {
        assert items[j] == p[j];
      }
    }
  }

  /** A step for an item that writes `k` stores its converted value there. */
  lemma {:induction false} StepOnKey(acc: Normalised, it: StatusItem, k: string)
    requires acc.Success? && Step(acc, it).Success? && Writes(it, k)
    ensures k in Step(acc, it).value && Coerce(k, it.varvalue) == Some(Step(acc, it).value[k])
  {
  }

  /** A step for an item that does not write `k` leaves `k` as it was. */
  lemma {:induction false} StepOffKey(acc: Normalised, it: StatusItem, k: string)
    requires acc.Success? && Step(acc, it).Success? && !Writes(it, k)
    ensures k in Step(acc, it).value <==> k in acc.value
    ensures k in acc.value ==> Step(acc, it).value[k] == acc.value[k]
  {
  }

  /** The two results agree except, possibly, at key `k`. */
  ghost predicate AgreeOffKey(r1: Normalised, r2: Normalised, k: string) {
    || (r1.Failure? && r2.Failure? && r1.error == r2.error)
    || (r1.Success? && r2.Success? && SameOffKey(r1.value, r2.value, k))
  }

  ghost predicate SameOffKey(m1: Snapshot, m2: Snapshot, k: string) {
    forall key :: key != k ==> (key in m1 <==> key in m2) && (key in m1 ==> m1[key] == m2[key])
  }

  lemma {:induction false} AgreeOffKeyFrom(r1: Normalised, r2: Normalised, k: string, q: seq<StatusItem>)
    requires AgreeOffKey(r1, r2, k)
    ensures AgreeOffKey(NormaliseFrom(r1, q), NormaliseFrom(r2, q), k)
    ensures (exists j :: 0 <= j < |q| && Writes(q[j], k)) ==> NormaliseFrom(r1, q) == NormaliseFrom(r2, q)
    decreases |q|
  {
    if q != [] {
      var n := |q| - 1;
      var p := q[..n];
      AgreeOffKeyFrom(r1, r2, k, p);
      var s1, s2 := NormaliseFrom(r1, p), NormaliseFrom(r2, p);
      assert NormaliseFrom(r1, q) == Step(s1, q[n]) && NormaliseFrom(r2, q) == Step(s2, q[n]);
      StepAgree(s1, s2, q[n], k);
      if (exists j :: 0 <= j < |q| && Writes(q[j], k)) && !Writes(q[n], k) {
        var j :| 0 <= j < |q| && Writes(q[j], k);
        assert p[j] == q[j];
      }
    }
  }

  /** One step keeps two results that agree off `k` in agreement, and makes
      them equal when the item writes `k`. */
  lemma {:induction false} StepAgree(s1: Normalised, s2: Normalised, it: StatusItem, k: string)
    requires AgreeOffKey(s1, s2, k)
    ensures AgreeOffKey(Step(s1, it), Step(s2, it), k)
    ensures Writes(it, k) ==> Step(s1, it) == Step(s2, it)
  {
    if s1.Success? && s2.Success? && Writes(it, k) {
      var v := Coerce(k, it.varvalue);
      if v.Some? {
        var m1, m2 := s1.value[k := v.value], s2.value[k := v.value];
        assert m1.Keys == m2.Keys;
        assert forall key :: key in m1 ==> m1[key] == m2[key];
        assert m1 == m2;
      }
    }
  }

  /** An earlier duplicate has no effect: an item writing key `k` that
      converts without raising can be dropped when a later item writes `k`
      as well. */
  lemma {:induction false} EarlierDuplicateOverridden(a: seq<StatusItem>, x: StatusItem, b: seq<StatusItem>, k: string)
    requires Writes(x, k) && Coerce(k, x.varvalue).Some?
    requires exists j :: 0 <= j < |b| && Writes(b[j], k)
    ensures Normalise(a + [x] + b) == Normalise(a + b)
  {
    var r2 := Normalise(a);
    var r1 := Normalise(a + [x]);
    assert r1 == Step(r2, x) by {
      assert (a + [x])[..|a + [x]| - 1] == a;
    }
    WriterAgreesOffKey(r2, x, k);
    AgreeOffKeyFrom(r1, r2, k, b);
    NormaliseFromAppend(Success(map[]), a + [x], b);
    NormaliseFromAppend(Success(map[]), a, b);
    assert Normalise(a + [x] + b) == NormaliseFrom(r1, b);
    assert Normalise(a + b) == NormaliseFrom(r2, b);
  }

  /** An item that writes `k` without raising changes nothing but `k`. */
  lemma {:induction false} WriterAgreesOffKey(acc: Normalised, x: StatusItem, k: string)
    requires Writes(x, k) && Coerce(k, x.varvalue).Some?
    ensures AgreeOffKey(Step(acc, x), acc, k)
  {
    if acc.Success? {
      var m := acc.value[k := Coerce(k, x.varvalue).value];
      assert Step(acc, x) == Success(m);
      assert SameOffKey(m, acc.value, k);
    }
  }

  /** The whole call fails exactly when some item's `int()` raises, and then
      it reports the first such item. */
  lemma {:induction false} FailsOnFirstUnconvertible(items: seq<StatusItem>)
    ensures Normalise(items).Failure? <==> exists i :: 0 <= i < |items| && Unconvertible(items[i])
    ensures Normalise(items).Failure? ==>
              exists i :: 0 <= i < |items| && Unconvertible(items[i])
                && (forall j :: 0 <= j < i ==> !Unconvertible(items[j]))
                && Normalise(items).error == NotAnInteger(items[i])
    decreases |items|
  {
    if items != [] {
      var n := |items| - 1;
      var p := items[..n];
      FailsOnFirstUnconvertible(p);
      forall i | 0 <= i < n ensures items[i] == p[i] { }
      if Normalise(p).Success? && Unconvertible(items[n]) {
        assert forall j :: 0 <= j < n ==> !Unconvertible(items[j]);
      }
    }
  }

  /** Flag coercion: true exactly for the string "online"; "Online",
      "offline", `true`, `null`, any number, list or dict and a missing
      `varvalue` all give false. */
  lemma {:induction false} FlagCoercion(k: string, varvalue: Option<JsonValue>)
    requires k in SnapshotKeys && !IsIntKey(k)
    ensures Coerce(k, varvalue).Some? && Coerce(k, varvalue).value.BoolField?
    ensures Coerce(k, varvalue).value.b <==>
              varvalue == Some(JStr("online"))
  {
    StrOnline(varvalue.GetOr(JStr("")));
  }

  /** Rate coercion: a missing `varvalue` gives 0, an int or the decimal text
      of an int gives that int; `null` and any string holding a character
      `int()` never accepts make it raise. */
  lemma {:induction false} RateCoercion(k: string, varvalue: Option<JsonValue>)
    requires IsIntKey(k)
    ensures varvalue == None ==> Coerce(k, varvalue) == Some(IntField(0))
    ensures varvalue == Some(JNull) ==> Coerce(k, varvalue) == None
    ensures forall n :: varvalue == Some(JInt(n)) ==> Coerce(k, varvalue) == Some(IntField(n))
    ensures forall n :: varvalue == Some(JStr(IntToDecimal(n))) ==> Coerce(k, varvalue) == Some(IntField(n))
    ensures forall s, i :: varvalue == Some(JStr(s)) && 0 <= i < |s| && !IsIntChar(s[i]) ==> Coerce(k, varvalue) == None
  {
    if varvalue == None {
      IntDecimalRoundTrip(0);
      assert IntToDecimal(0) == "0";
    }
    if varvalue.Some? && varvalue.value.JStr? {
      var s := varvalue.value.s;
      forall n | s == IntToDecimal(n) ensures Coerce(k, varvalue) == Some(IntField(n)) {
        IntDecimalRoundTrip(n);
      }
      forall i | 0 <= i < |s| && !IsIntChar(s[i]) ensures Coerce(k, varvalue) == None {
        NonNumericStringFails(s, i);
      }
    }
  }
}
