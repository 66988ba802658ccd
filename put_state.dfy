/**
 * The day-state upload handler (backend/src/handlers/put-state.ts): the
 * shape check on the parsed body, the `YYYY-MM-DD` date check, the order in
 * which a request is refused, and the state that is stored.
 *
 * The body is a JSON value with JavaScript's truthiness and property access
 * (`None` is `undefined`). `JSON.parse` is the parameter `parse`, failing
 * with `None`; the authenticated user id, the existing stored state, whether
 * the object store calls succeed and the current ISO time are parameters.
 */
module PutState {
  import opened Wrappers
  import opened Decimal

  datatype Json =
    | JNull
    | JBool(b: bool)
    | JNumber(n: real)
    | JString(s: string)
    | JArray(items: seq<Json>)
    | JObject(fields: map<string, Json>)

  /** `v.k`: an object's own property; every other value has none of the keys read here. */
  function Prop(v: Json, k: string): Option<Json>
  {
    if v.JObject? && k in v.fields then Some(v.fields[k]) else None
  }

  /** JavaScript truthiness: `undefined`, `null`, `false`, `0` and `""` are falsy. */
  predicate Truthy(v: Option<Json>)
  {
    match v
    case None => false
    case Some(JNull) => false
    case Some(JBool(b)) => b
    case Some(JNumber(n)) => n != 0.0
    case Some(JString(s)) => s != ""
    case Some(_) => true
  }

  predicate IsString(v: Option<Json>) { v.Some? && v.value.JString? }
  predicate IsNumber(v: Option<Json>) { v.Some? && v.value.JNumber? }
  predicate IsArray(v: Option<Json>) { v.Some? && v.value.JArray? }

  /** The checks before the loop: a truthy object, `version === 1`, a string date, a null-or-string day start, an array of blocks. */
  predicate HeaderOk(v: Json)
  {
    && Truthy(Some(v)) && (v.JArray? || v.JObject?)
    && Prop(v, "version") == Some(JNumber(1.0))
    && IsString(Prop(v, "date"))
    && (Prop(v, "dayStartAt") == Some(JNull) || IsString(Prop(v, "dayStartAt")))
    && IsArray(Prop(v, "blocks"))
  }

  function Blocks(v: Json): seq<Json>
    requires HeaderOk(v)
  {
    Prop(v, "blocks").value.items
  }

  /** One block's checks: truthy id, type and label, a numeric estimate, an array of sessions. */
  predicate BlockFieldsOk(b: Json)
  {
    && Truthy(Prop(b, "id")) && Truthy(Prop(b, "type")) && Truthy(Prop(b, "label"))
    && IsNumber(Prop(b, "estimateMinutes"))
    && IsArray(Prop(b, "sessions"))
  }

  /** The outcome of running the validator: it can also throw. */
  datatype Verdict = Valid | Invalid | Throws

  /** The loop of lines 19-23 as written: reading `block.id` on a `null` element throws a TypeError. */
  function CheckBlocksAsWritten(bs: seq<Json>): Verdict
  {
    if bs == [] then Valid
    else if bs[0].JNull? then Throws
    else if !BlockFieldsOk(bs[0]) then Invalid
    else CheckBlocksAsWritten(bs[1..])
  }

  /** `validateState` as written. */
  function ValidateStateAsWritten(v: Json): Verdict
  {
    if !HeaderOk(v) then Invalid else CheckBlocksAsWritten(Blocks(v))
  }

  /** The loop with a `null` element refused like any other malformed block. */
  function CheckBlocks(bs: seq<Json>): (r: bool)
    ensures r <==> forall i :: 0 <= i < |bs| ==> BlockFieldsOk(bs[i])
  {
    if bs == [] then true
    else if !BlockFieldsOk(bs[0]) then false
    else
      assert forall i :: 1 <= i < |bs| ==> bs[i] == bs[1..][i - 1];
      CheckBlocks(bs[1..])
  }

  /**
   * `validateState` as evidently intended: the header checks and every block
   * well formed. An accepted value is always an object, and an empty block
   * list is accepted.
   */
  function ValidateState(v: Json): (r: bool)
    ensures r <==> HeaderOk(v) && forall i :: 0 <= i < |Blocks(v)| ==> BlockFieldsOk(Blocks(v)[i])
    ensures r ==> v.JObject?
  {
    HeaderOk(v) && CheckBlocks(Blocks(v))
  }

  /** No `null` block is well formed, since `null` has no properties. */
  lemma NullBlockMalformed()
    ensures !BlockFieldsOk(JNull)
  {
  }

  /** The loop as written differs from the intended one only by throwing where a `null` block comes first among the bad ones. */
  lemma {:induction false} CheckBlocksAsWrittenAgrees(bs: seq<Json>)
    ensures CheckBlocksAsWritten(bs) == Valid <==> CheckBlocks(bs)
    ensures CheckBlocksAsWritten(bs) == Throws <==>
      exists i :: 0 <= i < |bs| && bs[i].JNull? && forall j :: 0 <= j < i ==> BlockFieldsOk(bs[j])
  {
    if bs != [] {
      CheckBlocksAsWrittenAgrees(bs[1..]);
      if !bs[0].JNull? && BlockFieldsOk(bs[0]) {
        if CheckBlocksAsWritten(bs[1..]) == Throws {
          var i :| 0 <= i < |bs[1..]| && bs[1..][i].JNull? && forall j :: 0 <= j < i ==> BlockFieldsOk(bs[1..][j]);
          assert bs[i + 1].JNull? && forall j :: 0 <= j < i + 1 ==> BlockFieldsOk(bs[j]);
        } else {
          forall i | 0 <= i < |bs| && bs[i].JNull?
            ensures exists j :: 0 <= j < i && !BlockFieldsOk(bs[j])
          {
            assert i > 0;
            assert bs[1..][i - 1].JNull?;
            var j :| 0 <= j < i - 1 && !BlockFieldsOk(bs[1..][j]);
            assert !BlockFieldsOk(bs[j + 1]);
          }
        }
      }
    }
  }

  /** Whenever the validator as written returns, its answer is the intended one. */
  lemma ValidateAsWrittenAgrees(v: Json)
    ensures ValidateStateAsWritten(v) != Throws ==> (ValidateStateAsWritten(v) == Valid <==> ValidateState(v))
    ensures ValidateStateAsWritten(v) == Throws ==> !ValidateState(v)
  {
    if HeaderOk(v) {
      CheckBlocksAsWrittenAgrees(Blocks(v));
      if ValidateStateAsWritten(v) == Throws {
        var i :| 0 <= i < |Blocks(v)| && Blocks(v)[i].JNull? && forall j :: 0 <= j < i ==> BlockFieldsOk(Blocks(v)[j]);
        NullBlockMalformed();
      }
    }
  }

  /** A body whose block list is `[null]`: the intended validator refuses it, the written one throws. */
  lemma NullBlockThrows()
    ensures var body := JObject(map[
      "version" := JNumber(1.0), "date" := JString("2024-01-01"), "dayStartAt" := JNull, "blocks" := JArray([JNull])]);
      ValidateStateAsWritten(body) == Throws && !ValidateState(body)
  {
    var body := JObject(map[
      "version" := JNumber(1.0), "date" := JString("2024-01-01"), "dayStartAt" := JNull, "blocks" := JArray([JNull])]);
    assert Prop(body, "blocks") == Some(JArray([JNull]));
    assert Blocks(body) == [JNull];
    NullBlockMalformed();
  }

  /** `/^\d{4}-\d{2}-\d{2}$/`: ten characters, digits everywhere except the dashes at 4 and 7. */
  predicate DateMatches(s: string)
  {
    && |s| == 10
    && s[4] == '-' && s[7] == '-'
    && forall i :: 0 <= i < 10 && i != 4 && i != 7 ==> IsDigit(s[i])
  }

  /** A year, month and day rendered as 4, 2 and 2 zero-padded digits. */
  function DateKey(y: nat, m: nat, d: nat): string
  {
    Fixed(y, 4) + "-" + Fixed(m, 2) + "-" + Fixed(d, 2)
  }

  /** The date pattern accepts exactly the zero-padded `YYYY-MM-DD` renderings. */
  lemma DateMatchesIffKey(s: string)
    ensures DateMatches(s) <==> exists y: nat, m: nat, d: nat :: s == DateKey(y, m, d)
  {
    if DateMatches(s) {
      var y, m, d := s[..4], s[5..7], s[8..10];
      FixedOfParse(y);
      FixedOfParse(m);
      FixedOfParse(d);
      assert s == DateKey(ParseNat(y), ParseNat(m), ParseNat(d));
    }
    forall y: nat, m: nat, d: nat | s == DateKey(y, m, d)
      ensures DateMatches(s)
    {
      var k := DateKey(y, m, d);
      assert forall i :: 0 <= i < 4 ==> k[i] == Fixed(y, 4)[i];
      assert forall i :: 5 <= i < 7 ==> k[i] == Fixed(m, 2)[i - 5];
      assert forall i :: 8 <= i < 10 ==> k[i] == Fixed(d, 2)[i - 8];
    }
  }

  /** The `date` query parameter passes: present, non-empty and in `YYYY-MM-DD` form. */
  predicate DateParamOk(date: Option<string>)
  {
    date.Some? && date.value != "" && DateMatches(date.value)
  }

  datatype Request = Request(httpMethod: string, userId: Option<string>, date: Option<string>, body: Option<string>)

  /** A `success` response with its body, an `error` response with its status and code, or an unhandled exception. */
  datatype Response = Success(body: Json) | Failure(status: int, code: string) | Crash

  /** `event.body || '{}'`. */
  function BodyText(body: Option<string>): string
  {
    if body.None? || body.value == "" then "{}" else body.value
  }

  /** `existing?.createdAt || now`: the existing creation time when it is truthy. */
  function CreatedAt(existing: Option<Json>, nowIso: string): Json
  {
    if existing.Some? && Truthy(Prop(existing.value, "createdAt")) then Prop(existing.value, "createdAt").value
    else JString(nowIso)
  }

  /** `{...body, userId, createdAt, updatedAt}`. */
  function StoredState(body: Json, userId: string, existing: Option<Json>, nowIso: string): (r: Json)
    requires body.JObject?
    ensures r.JObject?
    ensures Prop(r, "userId") == Some(JString(userId))
    ensures Prop(r, "createdAt") == Some(CreatedAt(existing, nowIso))
    ensures Prop(r, "updatedAt") == Some(JString(nowIso))
    ensures forall k :: k != "userId" && k != "createdAt" && k != "updatedAt" ==> Prop(r, k) == Prop(body, k)
  {
    JObject(body.fields["userId" := JString(userId)]["createdAt" := CreatedAt(existing, nowIso)]["updatedAt" := JString(nowIso)])
  }

  /** The stored state passes the validator whenever the body did. */
  lemma StoredStateValid(body: Json, userId: string, existing: Option<Json>, nowIso: string)
    requires ValidateState(body)
    ensures ValidateState(StoredState(body, userId, existing, nowIso))
  {
    var r := StoredState(body, userId, existing, nowIso);
    assert Prop(r, "blocks") == Prop(body, "blocks");
    assert Blocks(r) == Blocks(body);
  }

  /**
   * The handler with the intended validator. The checks run in order: a
   * preflight is answered at once, then a missing user is 401, then a bad
   * date, then a body that is not JSON, then a malformed state, then a
   * failing store; otherwise the stored state comes back.
   */
  function Handle(req: Request, parse: string -> Option<Json>, existing: Option<Json>, storageOk: bool, nowIso: string): (r: Response)
    ensures req.httpMethod == "OPTIONS" ==> r == Success(JObject(map[]))
    ensures req.httpMethod != "OPTIONS" ==>
      (r == Failure(401, "UNAUTHORIZED") <==> req.userId.None?)
    ensures req.httpMethod != "OPTIONS" && req.userId.Some? ==>
      (r == Failure(400, "INVALID_DATE") <==> !DateParamOk(req.date))
    ensures req.httpMethod != "OPTIONS" && req.userId.Some? && DateParamOk(req.date) ==>
      (r == Failure(400, "INVALID_JSON") <==> parse(BodyText(req.body)).None?)
    ensures req.httpMethod != "OPTIONS" && req.userId.Some? && DateParamOk(req.date) && parse(BodyText(req.body)).Some? ==>
      (r == Failure(400, "INVALID_STATE") <==> !ValidateState(parse(BodyText(req.body)).value))
    ensures r.Success? && req.httpMethod != "OPTIONS" ==>
      && req.userId.Some? && DateParamOk(req.date) && storageOk
      && parse(BodyText(req.body)).Some? && ValidateState(parse(BodyText(req.body)).value)
      && r.body == StoredState(parse(BodyText(req.body)).value, req.userId.value, existing, nowIso)
      && ValidateState(r.body)
    ensures r.Failure? && r.status == 500 <==>
      && req.httpMethod != "OPTIONS" && req.userId.Some? && DateParamOk(req.date)
      && parse(BodyText(req.body)).Some? && ValidateState(parse(BodyText(req.body)).value) && !storageOk
    ensures !r.Crash?
  {
    if req.httpMethod == "OPTIONS" then Success(JObject(map[]))
    else if req.userId.None? then Failure(401, "UNAUTHORIZED")
    else if !DateParamOk(req.date) then Failure(400, "INVALID_DATE")
    else match parse(BodyText(req.body))
      case None => Failure(400, "INVALID_JSON")
      case Some(body) =>
        if !ValidateState(body) then Failure(400, "INVALID_STATE")
        else if !storageOk then Failure(500, "INTERNAL_ERROR")
        else
          StoredStateValid(body, req.userId.value, existing, nowIso);
          Success(StoredState(body, req.userId.value, existing, nowIso))
  }

  /**
   * The handler as written: the same checks in the same order, but
   * `validateState` runs outside the `try`, so its TypeError escapes.
   */
  function HandleAsWritten(req: Request, parse: string -> Option<Json>, existing: Option<Json>, storageOk: bool, nowIso: string): Response
  {
    if req.httpMethod == "OPTIONS" then Success(JObject(map[]))
    else if req.userId.None? then Failure(401, "UNAUTHORIZED")
    else if !DateParamOk(req.date) then Failure(400, "INVALID_DATE")
    else match parse(BodyText(req.body))
      case None => Failure(400, "INVALID_JSON")
      case Some(body) =>
        match ValidateStateAsWritten(body)
        case Throws => Crash
        case Invalid => Failure(400, "INVALID_STATE")
        case Valid =>
          if !storageOk then Failure(500, "INTERNAL_ERROR")
          else
            ValidateAsWrittenAgrees(body);
            Success(StoredState(body, req.userId.value, existing, nowIso))
  }

  /**
   * The two handlers give the same response except where the written one
   * crashes; it crashes exactly on a body whose first malformed block is
   * `null`, which the intended handler refuses as INVALID_STATE.
   */
  lemma HandleAsWrittenAgrees(req: Request, parse: string -> Option<Json>, existing: Option<Json>, storageOk: bool, nowIso: string)
    ensures var r := HandleAsWritten(req, parse, existing, storageOk, nowIso);
      r != Crash ==> r == Handle(req, parse, existing, storageOk, nowIso)
    ensures HandleAsWritten(req, parse, existing, storageOk, nowIso) == Crash <==>
      && req.httpMethod != "OPTIONS" && req.userId.Some? && DateParamOk(req.date)
      && parse(BodyText(req.body)).Some? && ValidateStateAsWritten(parse(BodyText(req.body)).value) == Throws
    ensures HandleAsWritten(req, parse, existing, storageOk, nowIso) == Crash ==>
      Handle(req, parse, existing, storageOk, nowIso) == Failure(400, "INVALID_STATE")
  {
    var text := BodyText(req.body);
    if parse(text).Some? {
      ValidateAsWrittenAgrees(parse(text).value);
    }
  }
}
