/** What a tool result says about the call behind it: the effective calls of a wrapper, the objects nested
    in a result, and the status of every call. */
module GuardResults {
  import opened Wrappers

  datatype Json =
    | Null
    | Bool(flag: bool)
    | Num(number: int)
    | Float(fraction: real)
    | Str(text: string)
    | Arr(items: seq<Json>)
    | Obj(fields: map<string, Json>)

  type Fields = map<string, Json>

  /** JSON text and the regular expressions that scan result text. */
  datatype Reader = Reader(parse: string -> Option<Json>, decode: string -> Option<Json>, dump: Json -> string,
                           failureText: string -> bool, errorWords: string -> bool, hostValidation: string -> bool)

  datatype Call = Call(name: string, arguments: Fields)

  datatype Status = Accepted | Failed | Unconfirmed | Undispatched

  function FieldsOf(v: Option<Json>): Fields {
    if v.Some? && v.value.Obj? then v.value.fields else map[]
  }

  function Get(f: Fields, k: string): Option<Json> {
    if k in f then Some(f[k]) else None
  }

  // ---- unwrap ---------------------------------------------------------------

  function CallsOf(items: seq<Json>): Result<seq<Call>> {
    if items == [] then Ok([])
    else
      match CallsOf(items[..|items| - 1])
      case Err(e) => Err(e)
      case Ok(calls) =>
        var item := items[|items| - 1];
        if !item.Obj? then Ok(calls)
        else if "name" !in item.fields then Ok(calls + [Call("", FieldsOf(Get(item.fields, "arguments")))])
        else if !item.fields["name"].Str? then Err("tool name is not text")
        else Ok(calls + [Call(item.fields["name"].text, FieldsOf(Get(item.fields, "arguments")))])
  }

  /** The effective calls behind a deferred-call wrapper; wrappers are opened once, not recursively. */
  function Unwrap(name: string, arguments: Json): Result<seq<Call>> {
    var f := FieldsOf(Some(arguments));
    if name != "tool_call" then Ok([Call(name, f)])
    else if "calls" in f && f["calls"].Arr? then CallsOf(f["calls"].items)
    else if "name" in f && f["name"].Str? then Ok([Call(f["name"].text, FieldsOf(Get(f, "arguments")))])
    else Ok([Call(name, f)])
  }

  /** How many of the first `n` items are objects. */
  function ObjectsIn(items: seq<Json>, n: nat): (r: nat)
    requires n <= |items|
    ensures r <= n
  {
    if n == 0 then 0 else ObjectsIn(items, n - 1) + if items[n - 1].Obj? then 1 else 0
  }

  /** The call an item names: without a name it is empty, and arguments that are no object are none. */
  predicate Calls(item: Json, call: Call) {
    && item.Obj?
    && (if "name" in item.fields then item.fields["name"] == Str(call.name) else call.name == "")
    && (if "arguments" in item.fields && item.fields["arguments"].Obj?
        then item.fields["arguments"] == Obj(call.arguments) else call.arguments == map[])
  }

  /** The calls of a batch are those of its objects, in order; a batch with a name that is no text is an error. */
  lemma {:induction false} CallsOfExactly(items: seq<Json>)
    ensures CallsOf(items).Err?
            <==> exists i :: 0 <= i < |items| && items[i].Obj? && "name" in items[i].fields && !items[i].fields["name"].Str?
    ensures CallsOf(items).Ok? ==>
              && |CallsOf(items).value| == ObjectsIn(items, |items|)
              && forall i :: 0 <= i < |items| && items[i].Obj? ==>
                               && ObjectsIn(items, i) < |CallsOf(items).value|
                               && Calls(items[i], CallsOf(items).value[ObjectsIn(items, i)])
    decreases |items|
  {
    if items != [] {
      var n := |items| - 1;
      var init := items[..n];
      CallsOfExactly(init);
      forall i | 0 <= i <= n
        ensures ObjectsIn(init, i) == ObjectsIn(items, i)
      {
        SameObjects(init, items, i);
      }
      assert forall i :: 0 <= i < n ==> init[i] == items[i];
    }
  }

  lemma {:induction false} SameObjects(a: seq<Json>, b: seq<Json>, n: nat)
    requires n <= |a| <= |b| && a == b[..|a|]
    ensures ObjectsIn(a, n) == ObjectsIn(b, n)
    decreases n
  {
    if n > 0 {
      SameObjects(a, b, n - 1);
    }
  }

  /** Only a wrapper is opened: by its list of calls if it has one, else by the call it names as text, else not. */
  lemma UnwrapExactly(name: string, arguments: Json)
    ensures var f := if arguments.Obj? then arguments.fields else map[];
            var batch := Get(f, "calls");
            && (name != "tool_call" ==> Unwrap(name, arguments) == Ok([Call(name, f)]))
            && (name == "tool_call" && batch.Some? && batch.value.Arr? ==>
                  Unwrap(name, arguments) == CallsOf(batch.value.items))
            && (name == "tool_call" && !(batch.Some? && batch.value.Arr?) ==>
                  && Unwrap(name, arguments).Ok? && |Unwrap(name, arguments).value| == 1
                  && var call := Unwrap(name, arguments).value[0];
                     if "name" in f && f["name"].Str? then Calls(Obj(f), call) else call == Call(name, f))
  {
  }

  // ---- nested result objects ------------------------------------------------

  /** A result object, given directly or as JSON text. */
  function AsObject(r: Reader, v: Json): Option<Fields> {
    match v
    case Obj(f) => Some(f)
    case Str(text) => (match r.parse(text) case Some(Obj(f)) => Some(f) case _ => None)
    case _ => None
  }

  function TextItems(items: seq<Json>): seq<Json> {
    if items == [] then []
    else
      var item := items[|items| - 1];
      TextItems(items[..|items| - 1])
      + if item.Obj? && Get(item.fields, "type") == Some(Str("text"))
        then [if "text" in item.fields then item.fields["text"] else Null] else []
  }

  /** Where a result object may hold another one. */
  function Children(f: Fields): seq<Json> {
    (if "result" in f then [f["result"]] else [])
    + (if "structuredContent" in f then [f["structuredContent"]] else [])
    + (if "content" in f && f["content"].Arr? then TextItems(f["content"].items) else [])
  }

  function Layers(r: Reader, v: Json, depth: nat): seq<Fields>
    decreases if depth > 5 then 0 else 6 - depth, 0
  {
    if depth > 4 then []
    else
      match AsObject(r, v)
      case None => []
      case Some(f) => [f] + AllLayers(r, Children(f), depth + 1)
  }

  function AllLayers(r: Reader, vs: seq<Json>, depth: nat): seq<Fields>
    decreases if depth > 5 then 0 else 6 - depth, 1, |vs|
  {
    if vs == [] then [] else AllLayers(r, vs[..|vs| - 1], depth) + Layers(r, vs[|vs| - 1], depth)
  }

  /** `o` is found `hops` levels below `v`. */
  ghost predicate Nested(r: Reader, v: Json, o: Fields, hops: nat)
    decreases hops
  {
    AsObject(r, v).Some?
    && if hops == 0 then o == AsObject(r, v).value
       else exists c :: c in Children(AsObject(r, v).value) && Nested(r, c, o, hops - 1)
  }

  /** `o` is found at most `limit` levels below `v`. */
  ghost predicate Within(r: Reader, v: Json, o: Fields, limit: int) {
    exists n: nat :: n <= limit && Nested(r, v, o, n)
  }

  lemma WithinStep(r: Reader, v: Json, o: Fields, limit: nat)
    requires AsObject(r, v).Some?
    ensures Within(r, v, o, limit)
            <==> o == AsObject(r, v).value
                 || exists c :: c in Children(AsObject(r, v).value) && Within(r, c, o, limit - 1)
  {
    hide AsObject, Children;
    var f := AsObject(r, v).value;
    if o == f {
      assert Nested(r, v, o, 0);
    }
    if c :| c in Children(f) && Within(r, c, o, limit - 1) {
      var n: nat :| n <= limit - 1 && Nested(r, c, o, n);
      assert Nested(r, v, o, n + 1);
    }
    if Within(r, v, o, limit) {
      var n: nat :| n <= limit && Nested(r, v, o, n);
      if n > 0 {
        var c :| c in Children(f) && Nested(r, c, o, n - 1);
        var m: nat := n - 1;
        assert m <= limit - 1 && Nested(r, c, o, m);
        assert Within(r, c, o, limit - 1);
      }
    }
  }

  /** The layers are exactly the objects at most four levels down. */
  lemma {:induction false} LayersAreNested(r: Reader, v: Json, depth: nat, o: Fields)
    ensures o in Layers(r, v, depth) <==> Within(r, v, o, 4 - depth)
    decreases if depth > 5 then 0 else 6 - depth, 0
  {
    hide AsObject, Children;
    if depth <= 4 && AsObject(r, v).Some? {
      var vs := Children(AsObject(r, v).value);
      hide Within;
      AllLayersAreNested(r, vs, depth + 1, o);
      WithinStep(r, v, o, 4 - depth);
    }
  }

  lemma {:induction false} AllLayersAreNested(r: Reader, vs: seq<Json>, depth: nat, o: Fields)
    ensures o in AllLayers(r, vs, depth) <==> exists c :: c in vs && Within(r, c, o, 4 - depth)
    decreases if depth > 5 then 0 else 6 - depth, 1, |vs|
  {
    hide Within, Layers;
    if vs != [] {
      var init, last := vs[..|vs| - 1], vs[|vs| - 1];
      assert vs == init + [last];
      AllLayersAreNested(r, init, depth, o);
      LayersAreNested(r, last, depth, o);
      assert AllLayers(r, vs, depth) == AllLayers(r, init, depth) + Layers(r, last, depth);
      if c :| c in vs && Within(r, c, o, 4 - depth) {
        assert c in init || c == last;
      }
      assert vs[|vs| - 1] in vs;
      if o in AllLayers(r, init, depth) {
        var c :| c in init && Within(r, c, o, 4 - depth);
        assert c in vs;
      }
    }
  }

  // ---- statuses -------------------------------------------------------------

  predicate Truthy(v: Json) {
    match v
    case Null => false
    case Bool(b) => b
    case Num(n) => n != 0
    case Float(x) => x != 0.0
    case Str(s) => s != ""
    case Arr(items) => items != []
    case Obj(f) => f != map[]
  }

  predicate Reports(f: Fields, k: string, flag: bool) {
    Get(f, k) == Some(Bool(flag))
  }

  /** Booleans are integers to the original: `True` is a non-zero exit code. */
  predicate Failing(f: Fields) {
    || Reports(f, "isError", true) || Reports(f, "ok", false) || Reports(f, "success", false)
    || ("error" in f && Truthy(f["error"]))
    || ("exit_code" in f && (f["exit_code"].Num? || f["exit_code"].Bool?) && Truthy(f["exit_code"]))
  }

  const ID_KEYS := ["id", "message_id", "event_id", "doc_id", "comment_id", "review_id", "order_id"]

  predicate Identifies(v: Json) {
    v.Num? || v.Bool? || (v.Str? && v.text != "")
  }

  predicate Affirms(f: Fields) {
    || Reports(f, "ok", true) || Reports(f, "success", true)
    || ("exit_code" in f && f["exit_code"] in {Num(0), Bool(false), Float(0.0)})
    || exists k :: k in ID_KEYS && k in f && Identifies(f[k])
  }

  const FAILURES := {("isError", Bool(true)), ("ok", Bool(false)), ("success", Bool(false))}
  const SUCCESSES := {("ok", Bool(true)), ("success", Bool(true)),
                      ("exit_code", Num(0)), ("exit_code", Bool(false)), ("exit_code", Float(0.0))}

  /** A result object reports failure by one of three flags, by any error that is not blank, or by an exit code
      that is an integer other than zero. */
  lemma FailingExactly(f: Fields)
    ensures Failing(f)
            <==> || (exists m :: m in FAILURES && Get(f, m.0) == Some(m.1))
                 || (Get(f, "error").Some? && Truthy(Get(f, "error").value))
                 || (exists n :: n != 0 && Get(f, "exit_code") == Some(Num(n)))
                 || Get(f, "exit_code") == Some(Bool(true))
  {
    assert ("isError", Bool(true)) in FAILURES && ("ok", Bool(false)) in FAILURES && ("success", Bool(false)) in FAILURES;
  }

  lemma SuccessFlags(f: Fields)
    ensures (exists m :: m in SUCCESSES && Get(f, m.0) == Some(m.1))
            <==> || Reports(f, "ok", true) || Reports(f, "success", true)
                 || ("exit_code" in f && f["exit_code"] in {Num(0), Bool(false), Float(0.0)})
  {
    assert ("ok", Bool(true)) in SUCCESSES && ("success", Bool(true)) in SUCCESSES;
    assert ("exit_code", Num(0)) in SUCCESSES && ("exit_code", Bool(false)) in SUCCESSES;
    assert ("exit_code", Float(0.0)) in SUCCESSES;
  }

  /** It affirms success by a flag, a zero exit code, or an identifier of what was written. */
  lemma AffirmsExactly(f: Fields)
    ensures Affirms(f)
            <==> || (exists m :: m in SUCCESSES && Get(f, m.0) == Some(m.1))
                 || (exists k, v :: k in ID_KEYS && Get(f, k) == Some(v)
                                    && (v.Num? || v.Bool? || (v.Str? && v.text != "")))
  {
    SuccessFlags(f);
    hide SUCCESSES, ID_KEYS;
    if k :| k in ID_KEYS && k in f && Identifies(f[k]) {
      assert Get(f, k) == Some(f[k]);
    }
  }

  function TextOf(r: Reader, result: Json): string {
    if result.Str? then result.text else r.dump(result)
  }

  /** The JSON object or list a result stands for. */
  function ValueOf(r: Reader, result: Json): Option<Json> {
    if result.Obj? || result.Arr? then Some(result)
    else
      var v := r.decode(TextOf(r, result));
      if v.Some? && (v.value.Obj? || v.value.Arr?) then v else None
  }

  predicate HostRejected(r: Reader, top: Fields) {
    top.Keys == {"error"} && top["error"].Str? && r.hostValidation(top["error"].text)
  }

  function ResultStatus(r: Reader, result: Json): Status {
    if result.Null? then Unconfirmed
    else
      var v := ValueOf(r, result);
      if v.None? || !v.value.Obj? then
        if r.failureText(TextOf(r, result)) || r.errorWords(TextOf(r, result)) then Failed else Unconfirmed
      else
        var layers := Layers(r, v.value, 0);
        if HostRejected(r, v.value.fields) then Undispatched
        else if exists f :: f in layers && Failing(f) then Failed
        else if exists f :: f in layers && Affirms(f) then Accepted
        else Unconfirmed
  }

  function Statuses(r: Reader, items: seq<Json>): (s: seq<Status>)
    ensures |s| == |items| && forall i :: 0 <= i < |items| ==> s[i] == ResultStatus(r, items[i])
  {
    seq(|items|, i requires 0 <= i < |items| => ResultStatus(r, items[i]))
  }

  function Items(r: Reader, result: Json): Option<seq<Json>> {
    match ValueOf(r, result)
    case Some(Arr(items)) => Some(items)
    case Some(Obj(f)) => if "results" in f && f["results"].Arr? then Some(f["results"].items) else None
    case _ => None
  }

  /** `_per_call_status`. */
  function PerCallStatus(r: Reader, result: Json, count: nat): (s: seq<Status>)
    ensures |s| == count
  {
    var overall := ResultStatus(r, result);
    var items := Items(r, result);
    if items.Some? && |items.value| == count then Statuses(r, items.value)
    else if count == 1 || overall == Undispatched then seq(count, _ => overall)
    else seq(count, _ => if overall == Failed then Failed else Unconfirmed)
  }

  // ---- what the raw result says ---------------------------------------------

  /** The result is the object `f`, or text that decodes to it. */
  ghost predicate StandsFor(r: Reader, result: Json, f: Fields) {
    result == Obj(f)
    || (&& !result.Obj? && !result.Arr?
        && r.decode(if result.Str? then result.text else r.dump(result)) == Some(Obj(f)))
  }

  ghost predicate IsObject(r: Reader, result: Json) {
    exists f :: StandsFor(r, result, f)
  }

  /** The host rejected the call before dispatch: nothing but an error of the host's validation. */
  ghost predicate HostRefusal(r: Reader, result: Json) {
    !result.Null? && exists why :: StandsFor(r, result, map["error" := Str(why)]) && r.hostValidation(why)
  }

  /** An object that reports failure at most four levels down. */
  ghost predicate FailureInside(r: Reader, result: Json) {
    !result.Null? && exists f, o :: StandsFor(r, result, f) && Within(r, Obj(f), o, 4) && Failing(o)
  }

  /** An object that affirms success at most four levels down. */
  ghost predicate SuccessInside(r: Reader, result: Json) {
    !result.Null? && exists f, o :: StandsFor(r, result, f) && Within(r, Obj(f), o, 4) && Affirms(o)
  }

  /** No object, but text that reads like a failure. */
  ghost predicate FailureInText(r: Reader, result: Json) {
    !result.Null? && !IsObject(r, result)
    && var text := if result.Str? then result.text else r.dump(result); r.failureText(text) || r.errorWords(text)
  }

  ghost predicate ReportsFailure(r: Reader, result: Json) {
    (!HostRefusal(r, result) && FailureInside(r, result)) || FailureInText(r, result)
  }

  /** No host rejection, no failure anywhere, and some object that affirms success. */
  ghost predicate Affirmed(r: Reader, result: Json) {
    !HostRefusal(r, result) && !FailureInside(r, result) && SuccessInside(r, result)
  }

  /** Neither rejected nor failed nor affirmed. */
  ghost predicate Silent(r: Reader, result: Json) {
    !HostRefusal(r, result) && !FailureInside(r, result) && !FailureInText(r, result) && !SuccessInside(r, result)
  }

  ghost predicate Says(r: Reader, result: Json, s: Status) {
    match s
    case Undispatched => HostRefusal(r, result)
    case Failed => ReportsFailure(r, result)
    case Accepted => Affirmed(r, result)
    case Unconfirmed => Silent(r, result)
  }

  lemma ValueStandsFor(r: Reader, result: Json, f: Fields)
    ensures StandsFor(r, result, f) <==> ValueOf(r, result) == Some(Obj(f))
  {
  }

  /** The layers of an object result are the objects at most four levels down. */
  lemma LayersOfResult(r: Reader, result: Json, f: Fields)
    requires StandsFor(r, result, f) && !result.Null?
    ensures (exists o :: o in Layers(r, Obj(f), 0) && Failing(o)) <==> FailureInside(r, result)
    ensures (exists o :: o in Layers(r, Obj(f), 0) && Affirms(o)) <==> SuccessInside(r, result)
  {
    hide Failing, Affirms, Within, Layers, ValueOf, StandsFor;
    forall o
      ensures o in Layers(r, Obj(f), 0) <==> Within(r, Obj(f), o, 4)
    {
      LayersAreNested(r, Obj(f), 0, o);
    }
    forall g | StandsFor(r, result, g)
      ensures g == f
    {
      OneObject(r, result, f, g);
    }
    if o :| o in Layers(r, Obj(f), 0) && Failing(o) {
      assert StandsFor(r, result, f) && Within(r, Obj(f), o, 4);
    }
    if o :| o in Layers(r, Obj(f), 0) && Affirms(o) {
      assert StandsFor(r, result, f) && Within(r, Obj(f), o, 4);
    }
  }

  lemma OneObject(r: Reader, result: Json, f: Fields, g: Fields)
    requires StandsFor(r, result, f) && StandsFor(r, result, g)
    ensures f == g
  {
  }

  lemma RefusalIs(r: Reader, result: Json, f: Fields)
    requires StandsFor(r, result, f) && !result.Null?
    ensures HostRefusal(r, result) <==> HostRejected(r, f)
  {
    hide StandsFor;
    if HostRejected(r, f) {
      assert f == map["error" := Str(f["error"].text)];
    }
    forall g | StandsFor(r, result, g)
      ensures g == f
    {
      OneObject(r, result, f, g);
    }
  }

  /** Every status, read off the raw result. */
  lemma StatusExactly(r: Reader, result: Json, s: Status)
    ensures ResultStatus(r, result) == s <==> Says(r, result, s)
  {
    hide Failing, Affirms, HostRejected, HostRefusal, FailureInside, SuccessInside, Layers, ValueOf, StandsFor;
    if result.Null? || !IsObject(r, result) {
      NoObject(r, result);
      forall f { ValueStandsFor(r, result, f); }
      assert result.Null? || ValueOf(r, result).None? || !ValueOf(r, result).value.Obj?;
    } else {
      var f :| StandsFor(r, result, f);
      ValueStandsFor(r, result, f);
      LayersOfResult(r, result, f);
      RefusalIs(r, result, f);
    }
  }

  lemma NoObject(r: Reader, result: Json)
    requires result.Null? || !IsObject(r, result)
    ensures !HostRefusal(r, result) && !FailureInside(r, result) && !SuccessInside(r, result)
  {
    hide StandsFor, Within, Failing, Affirms;
  }

  /** A result is accepted exactly when it affirms success. */
  lemma AcceptedExactly(r: Reader, result: Json)
    ensures ResultStatus(r, result) == Accepted <==> Affirmed(r, result)
  {
    StatusExactly(r, result, Accepted);
  }

  /** What a nested object may hide in: `result`, `structuredContent`, and the text items of `content`. */
  lemma ChildrenExactly(f: Fields, v: Json)
    ensures v in Children(f)
            <==> || Get(f, "result") == Some(v) || Get(f, "structuredContent") == Some(v)
                 || exists items, item :: Get(f, "content") == Some(Arr(items)) && item in items && IsTextItem(item, v)
  {
    hide TextItems, IsTextItem;
    if "content" in f && f["content"].Arr? {
      TextItemsExactly(f["content"].items, v);
    }
  }

  /** A content item of type text; one without text stands for null. */
  predicate IsTextItem(item: Json, v: Json) {
    item.Obj? && Get(item.fields, "type") == Some(Str("text"))
    && (Get(item.fields, "text") == Some(v) || ("text" !in item.fields && v == Null))
  }

  lemma {:induction false} TextItemsExactly(items: seq<Json>, v: Json)
    ensures v in TextItems(items) <==> exists item :: item in items && IsTextItem(item, v)
    decreases |items|
  {
    if items != [] {
      var n := |items| - 1;
      TextItemsExactly(items[..n], v);
      assert items == items[..n] + [items[n]];
      var rest := TextItems(items[..n]);
      assert v in TextItems(items) <==> v in rest || IsTextItem(items[n], v);
      forall item | item in items && IsTextItem(item, v)
        ensures v in TextItems(items)
      {
        assert item in items[..n] || item == items[n];
      }
    }
  }

  // ---- the status of each call ----------------------------------------------

  /** The result is a list of items, or an object that lists them as its results. */
  ghost predicate Itemised(r: Reader, result: Json, items: seq<Json>) {
    || result == Arr(items)
    || (&& !result.Obj? && !result.Arr?
        && r.decode(if result.Str? then result.text else r.dump(result)) == Some(Arr(items)))
    || (exists f :: StandsFor(r, result, f) && Get(f, "results") == Some(Arr(items)))
  }

  lemma ItemsExactly(r: Reader, result: Json, items: seq<Json>)
    ensures Items(r, result) == Some(items) <==> Itemised(r, result, items)
  {
    hide StandsFor;
    forall f { ValueStandsFor(r, result, f); }
    var v := ValueOf(r, result);
    if v.Some? && v.value.Obj? {
      assert StandsFor(r, result, v.value.fields);
    }
  }

  /** There is one item for each call. */
  ghost predicate ItemPerCall(r: Reader, result: Json, count: nat) {
    exists items :: Itemised(r, result, items) && |items| == count
  }

  /** What the raw result says about call `i` of `count`: its own item speaks for it; without an item for each
      call the whole result does, but then several calls can only be rejected, failed or left unconfirmed. */
  ghost predicate CallIs(r: Reader, result: Json, count: nat, i: nat, s: Status)
    requires i < count
  {
    if ItemPerCall(r, result, count)
    then exists items :: Itemised(r, result, items) && |items| == count && Says(r, items[i], s)
    else
      match s
      case Undispatched => HostRefusal(r, result)
      case Failed => ReportsFailure(r, result)
      case Accepted => count == 1 && Affirmed(r, result)
      case Unconfirmed => Silent(r, result) || (count > 1 && Affirmed(r, result))
  }

  /** Every status of every call, read off the raw result. */
  lemma CallStatusExactly(r: Reader, result: Json, count: nat, i: nat, s: Status)
    requires i < count
    ensures PerCallStatus(r, result, count)[i] == s <==> CallIs(r, result, count, i, s)
  {
    hide ResultStatus, Items, Itemised, HostRefusal, ReportsFailure, Affirmed, Silent;
    var items := Items(r, result);
    forall xs
      ensures items == Some(xs) <==> Itemised(r, result, xs)
    {
      ItemsExactly(r, result, xs);
    }
    if items.Some? && |items.value| == count {
      assert Itemised(r, result, items.value);
      StatusExactly(r, items.value[i], s);
    } else {
      assert !ItemPerCall(r, result, count);
      StatusExactly(r, result, Undispatched);
      StatusExactly(r, result, Failed);
      StatusExactly(r, result, Accepted);
      StatusExactly(r, result, Unconfirmed);
    }
  }

  // ---- the wrapper preserves the calls it names -----------------------------

  function Wrapped(call: Call): Json {
    Obj(map["name" := Str(call.name), "arguments" := Obj(call.arguments)])
  }

  lemma {:induction false} CallsOfWrapped(calls: seq<Call>)
    ensures CallsOf(seq(|calls|, i requires 0 <= i < |calls| => Wrapped(calls[i]))) == Ok(calls)
    decreases |calls|
  {
    if calls != [] {
      var n := |calls| - 1;
      var items := seq(|calls|, i requires 0 <= i < |calls| => Wrapped(calls[i]));
      assert items[..n] == seq(n, i requires 0 <= i < n => Wrapped(calls[..n][i]));
      CallsOfWrapped(calls[..n]);
      assert calls == calls[..n] + [calls[n]];
    }
  }

  /** Wrapping any batch of calls and unwrapping it gives the batch back. */
  lemma UnwrapWrapped(calls: seq<Call>)
    ensures var batch := seq(|calls|, i requires 0 <= i < |calls| => Wrapped(calls[i]));
            Unwrap("tool_call", Obj(map["calls" := Arr(batch)])) == Ok(calls)
  {
    CallsOfWrapped(calls);
  }
}
