/**
  `POST /api/actions/log`: normalising `externalId`, `actionId` and `qty`,
  looking the action up in the catalog and building the `action_logs` row
  whose points and life figures are the catalog values times the quantity.
 */
module ActionLog {
  import opened Wrappers
  import opened Text
  import opened JsValues

  /** `String(externalId).trim()`: the text of the value with the
      whitespace cut from both ends, and nothing else changed. */
  function NormaliseExternalId(v: JsValue): (r: string)
    ensures IsTrimOf(r, ToJsString(v))
    ensures r == [] || (!IsSpace(r[0]) && !IsSpace(r[|r| - 1]))
    ensures NoSpace(ToJsString(v)) ==> r == ToJsString(v)
  {
    var s := ToJsString(v);
    TrimFacts(s);
    Trim(s)
  }

  /** `String(actionId).trim().toUpperCase()`: the external-id
      normalisation followed by upper-casing. */
  function NormaliseActionId(v: JsValue): (r: string)
    ensures r == ToUpper(NormaliseExternalId(v))
    ensures NoLower(r)
    ensures r == [] || (!IsSpace(r[0]) && !IsSpace(r[|r| - 1]))
  {
    UpperTrimmed(ToJsString(v));
    ToUpper(NormaliseExternalId(v))
  }

  lemma UpperTrimmed(s: string)
    ensures NoLower(ToUpper(Trim(s)))
    ensures var r := ToUpper(Trim(s)); r == [] || (!IsSpace(r[0]) && !IsSpace(r[|r| - 1]))
  {
    var t := Trim(s);
    TrimEdges(s);
    ToUpperSpec(t);
    if t != [] {
      UpperCharSpace(t[0]);
      UpperCharSpace(t[|t| - 1]);
    }
  }

  /** Normalising an already normalised action id changes nothing. */
  lemma NormaliseActionIdIdempotent(v: JsValue)
    ensures NormaliseActionId(Str(NormaliseActionId(v))) == NormaliseActionId(v)
  {
    var t := Trim(ToJsString(v));
    var u := ToUpper(t);
    TrimToUpper(t);
    TrimIdempotent(ToJsString(v));
    ToUpperSpec(t);
    assert Trim(u) == ToUpper(Trim(t)) == u;
  }

  /** The quantity as the handler computes it:
      `Number.isFinite(Number(qty)) ? Math.max(1, parseInt(String(qty), 10)) : 1`.
      A value whose `Number` is finite but whose text has no leading digit
      (`null`, `""`, `true`) gives `NaN`. */
  function QtyAsWritten(qty: JsValue): (r: Num)
    ensures ToNumber(qty).NaN? ==> r == Fin(1)
    ensures r.Fin? ==> r.n >= 1
    ensures r.NaN? <==> ToNumber(qty).Fin? && ParseInt(ToJsString(qty)).NaN?
  {
    if ToNumber(qty).Fin? then JsMax(Fin(1), ParseInt(ToJsString(qty))) else Fin(1)
  }

  /** The request values the finiteness guard lets through but the
      as-written quantity turns into `NaN`: `null`, both booleans and any
      all-whitespace string (the empty one included). Their `Number` is 0
      or 1, their text has no leading digit; the intended quantity is 1. */
  lemma QtyAsWrittenNaN(v: JsValue)
    requires v == Null || v.Bool? || (v.Str? && forall i :: 0 <= i < |v.s| ==> IsSpace(v.s[i]))
    ensures ToNumber(v).Fin?
    ensures QtyAsWritten(v).NaN?
    ensures Qty(v) == 1
  {
    if v == Null {
      assert TrimStart("null") == "null" by { assert !IsSpace('n'); }
    } else if v == Bool(true) {
      assert TrimStart("true") == "true" by { assert !IsSpace('t'); }
    } else if v == Bool(false) {
      assert TrimStart("false") == "false" by { assert !IsSpace('f'); }
    } else {
      BlankQtyNaN(v.s);
    }
  }

  /** An all-whitespace string is the number 0 but has no digit to parse. */
  lemma BlankQtyNaN(s: string)
    requires forall i :: 0 <= i < |s| ==> IsSpace(s[i])
    ensures ToNumber(Str(s)) == Fin(0)
    ensures ParseInt(s).NaN?
  {
    BlankTrimStart(s);
    assert Trim(s) == [];
  }

  lemma {:induction false} BlankTrimStart(s: string)
    requires forall i :: 0 <= i < |s| ==> IsSpace(s[i])
    ensures TrimStart(s) == []
    decreases |s|
  {
    if |s| > 0 {
      assert IsSpace(s[0]);
      BlankTrimStart(s[1..]);
    }
  }

  /** The quantity as intended: at least 1, 1 when the value is not numeric,
      and equal to the as-written quantity whenever that is a number. */
  function Qty(qty: JsValue): (r: int)
    ensures r >= 1
    ensures QtyAsWritten(qty).Fin? ==> r == QtyAsWritten(qty).n
    ensures QtyAsWritten(qty).NaN? ==> r == 1
    ensures ToNumber(qty).NaN? ==> r == 1
  {
    var parsed := ParseInt(ToJsString(qty));
    if ToNumber(qty).Fin? && parsed.Fin? then Max(1, parsed.n) else 1
  }

  /** A numeric quantity, sent as a number or as its decimal text, is used
      as is when positive and raised to 1 otherwise. */
  lemma QtyOfNumber(n: int)
    ensures Qty(Number(Fin(n))) == Max(1, n)
    ensures Qty(Str(IntToString(n))) == Max(1, n)
  {
    IntRoundTrip(n);
  }

  datatype LogBody = LogBody(externalId: JsValue, actionId: JsValue, qty: JsValue)

  /** An `actions_catalog` row; a `null` numeric column reads as 0. */
  datatype CatalogRow = CatalogRow(
    id: string,
    pillar: Option<string>,
    levelCode: Option<string>,
    lifeHours: Option<real>,
    lifeDays: Option<real>,
    pointValue: Option<real>)

  /** A JavaScript number that may be fractional: `NaN` or a real. */
  datatype Amount = NaNAmount | Amount(x: real)

  /** The inserted `action_logs` row. A `NaN` field is sent as JSON `null`. */
  datatype ActionLogRow = ActionLogRow(
    userExternalId: string,
    actionId: string,
    qty: Num,
    points: Amount,
    lifeHours: Amount,
    lifeDays: Amount,
    pillar: Option<string>,
    levelCode: Option<string>)

  /** The id and creation time the store reports for the new row. */
  datatype Inserted = Inserted(id: Option<string>, createdAt: Option<string>)

  datatype ActionLogResult = ActionLogResult(reply: Reply<Inserted>, insert: Option<ActionLogRow>)

  /** `(catalogValue ?? 0) * qty`: `NaN` times anything is `NaN`. */
  function Times(value: Option<real>, qty: Num): (a: Amount)
    ensures a.NaNAmount? <==> qty.NaN?
    ensures qty.Fin? ==> a == Amount(value.GetOr(0.0) * qty.n as real)
  {
    match qty
    case NaN => NaNAmount
    case Fin(n) => Amount(value.GetOr(0.0) * n as real)
  }

  /** The row written for one logged action: each figure is the catalog's
      value (0 when `null`) times the quantity. */
  function BuildRow(externalId: string, actionId: string, qty: Num, cat: CatalogRow): (row: ActionLogRow)
    ensures row.qty == qty
    ensures row.userExternalId == externalId && row.actionId == actionId
    ensures qty.Fin? ==> row.points == Amount(cat.pointValue.GetOr(0.0) * qty.n as real)
    ensures qty.Fin? ==> row.lifeHours == Amount(cat.lifeHours.GetOr(0.0) * qty.n as real)
    ensures qty.Fin? ==> row.lifeDays == Amount(cat.lifeDays.GetOr(0.0) * qty.n as real)
    ensures qty.NaN? ==> row.points.NaNAmount? && row.lifeHours.NaNAmount? && row.lifeDays.NaNAmount?
    ensures row.pillar == cat.pillar && row.levelCode == cat.levelCode
  {
    ActionLogRow(externalId, actionId, qty,
      Times(cat.pointValue, qty), Times(cat.lifeHours, qty), Times(cat.lifeDays, qty),
      cat.pillar, cat.levelCode)
  }

  /** The row for a request that found its action in the catalog, with the
      quantity read as written or as intended. */
  function RowFor(b: LogBody, cat: CatalogRow, asWritten: bool): (row: ActionLogRow)
    ensures row.userExternalId == NormaliseExternalId(b.externalId)
    ensures row.actionId == NormaliseActionId(b.actionId)
    ensures row.qty == if asWritten then QtyAsWritten(b.qty) else Fin(Qty(b.qty))
    ensures row.qty.Fin? ==> row.qty.n >= 1
    ensures row.points == Times(cat.pointValue, row.qty)
    ensures row.lifeHours == Times(cat.lifeHours, row.qty) && row.lifeDays == Times(cat.lifeDays, row.qty)
    ensures row.pillar == cat.pillar && row.levelCode == cat.levelCode
  {
    var qty := if asWritten then QtyAsWritten(b.qty) else Fin(Qty(b.qty));
    BuildRow(NormaliseExternalId(b.externalId), NormaliseActionId(b.actionId), qty, cat)
  }

  /** Whether the request passes every check before the catalog lookup. */
  predicate WellFormed(verb: string, envReady: bool, body: Option<LogBody>) {
    verb == "POST" && envReady && body.Some? && Truthy(body.value.externalId) && Truthy(body.value.actionId)
  }

  /** The handler, parametrised by how it reads the quantity: as written
      (`QtyAsWritten`) or as intended (`Fin(Qty(..))`). */
  function Handle(
    verb: string, envReady: bool, body: Option<LogBody>,
    catalog: StoreResult<Option<CatalogRow>>, inserted: StoreResult<Inserted>, asWritten: bool)
    : (r: ActionLogResult)
    ensures verb != "POST" ==> r.reply == Refused(405, "Method not allowed")
    ensures verb == "POST" && !envReady ==>
      r.reply == Refused(500, "Missing SUPABASE_URL / SUPABASE_SERVICE_ROLE_KEY")
    ensures verb == "POST" && envReady && body.None? ==> r.reply == Refused(400, "Invalid JSON body")
    ensures (verb == "POST" && envReady && body.Some? &&
             (!Truthy(body.value.externalId) || !Truthy(body.value.actionId))) ==>
      r.reply == Refused(400, "externalId and actionId are required")
    ensures WellFormed(verb, envReady, body) && catalog.StoreErr? ==>
      r.reply == Refused(500, "Select actions_catalog failed")
    ensures WellFormed(verb, envReady, body) && catalog.StoreOk? && catalog.data.None? ==>
      r.reply == Refused(404, "actionId not found in actions_catalog")
    // only a catalog hit writes, and the row is built from the normalised ids
    ensures r.insert.Some? <==> WellFormed(verb, envReady, body) && catalog.StoreOk? && catalog.data.Some?
    ensures r.insert.Some? ==> r.insert.value == RowFor(body.value, catalog.data.value, asWritten)
    ensures r.insert.Some? && inserted.StoreErr? ==> r.reply == Refused(400, "Insert in action_logs failed")
    ensures r.reply.Answered? <==> r.insert.Some? && inserted.StoreOk?
    ensures r.reply.Answered? ==> r.reply.body == inserted.data
  {
    if verb != "POST" then ActionLogResult(Refused(405, "Method not allowed"), None)
    else if !envReady then
      ActionLogResult(Refused(500, "Missing SUPABASE_URL / SUPABASE_SERVICE_ROLE_KEY"), None)
    else if body.None? then ActionLogResult(Refused(400, "Invalid JSON body"), None)
    else if !Truthy(body.value.externalId) || !Truthy(body.value.actionId) then
      ActionLogResult(Refused(400, "externalId and actionId are required"), None)
    else if catalog.StoreErr? then ActionLogResult(Refused(500, "Select actions_catalog failed"), None)
    else if catalog.data.None? then ActionLogResult(Refused(404, "actionId not found in actions_catalog"), None)
    else
      var row := RowFor(body.value, catalog.data.value, asWritten);
      if inserted.StoreErr? then ActionLogResult(Refused(400, "Insert in action_logs failed"), Some(row))
      else ActionLogResult(Answered(inserted.data), Some(row))
  }

  /** The handler as written. `envReady` says whether the store's URL and key
      are configured, `body` is `None` when the body is not valid JSON,
      `catalog` is the lookup of the normalised action id and `inserted` the
      outcome of the insert (a row with `NaN` figures reaches the store as
      `null`s, and the store decides whether to accept it). */
  function LogAction(
    verb: string, envReady: bool, body: Option<LogBody>,
    catalog: StoreResult<Option<CatalogRow>>, inserted: StoreResult<Inserted>)
    : (r: ActionLogResult)
    ensures r == Handle(verb, envReady, body, catalog, inserted, true)
    ensures r.insert.Some? ==> r.insert.value.qty == QtyAsWritten(body.value.qty)
    ensures r.insert.Some? && QtyAsWritten(body.value.qty).NaN? ==>
      r.insert.value.points.NaNAmount? && r.insert.value.lifeHours.NaNAmount? && r.insert.value.lifeDays.NaNAmount?
  {
    Handle(verb, envReady, body, catalog, inserted, true)
  }

  /** The handler with the intended quantity: every written row has a
      quantity of at least 1 and real figures. */
  function LogActionIntended(
    verb: string, envReady: bool, body: Option<LogBody>,
    catalog: StoreResult<Option<CatalogRow>>, inserted: StoreResult<Inserted>)
    : (r: ActionLogResult)
    ensures r == Handle(verb, envReady, body, catalog, inserted, false)
    ensures r.insert.Some? ==> r.insert.value.qty == Fin(Qty(body.value.qty)) && r.insert.value.qty.n >= 1
    ensures r.insert.Some? ==>
      r.insert.value.points.Amount? && r.insert.value.lifeHours.Amount? && r.insert.value.lifeDays.Amount?
  {
    Handle(verb, envReady, body, catalog, inserted, false)
  }

  /** The two handlers differ only where the as-written quantity is `NaN`:
      there the intended one writes a quantity of 1 and real figures where
      the as-written one writes `NaN`s. */
  lemma IntendedDiffersOnlyOnNaN(
    verb: string, envReady: bool, body: Option<LogBody>,
    catalog: StoreResult<Option<CatalogRow>>, inserted: StoreResult<Inserted>)
    ensures body.Some? && QtyAsWritten(body.value.qty).Fin? ==>
      LogAction(verb, envReady, body, catalog, inserted) ==
      LogActionIntended(verb, envReady, body, catalog, inserted)
    ensures var w := LogAction(verb, envReady, body, catalog, inserted);
      var i := LogActionIntended(verb, envReady, body, catalog, inserted);
      w.reply == i.reply && (w.insert.Some? <==> i.insert.Some?)
    ensures var w := LogAction(verb, envReady, body, catalog, inserted);
      var i := LogActionIntended(verb, envReady, body, catalog, inserted);
      w.insert.Some? && QtyAsWritten(body.value.qty).NaN? ==>
        w.insert.value.points.NaNAmount? && i.insert.value.qty == Fin(1)
  {
  }

  /** An action id the catalog does not know gives 404 and writes nothing. */
  lemma UnknownActionWritesNothing(verb: string, body: LogBody, inserted: StoreResult<Inserted>)
    requires verb == "POST"
    requires Truthy(body.externalId) && Truthy(body.actionId)
    ensures var r := LogAction(verb, true, Some(body), StoreOk(None), inserted);
      r.reply == Refused(404, "actionId not found in actions_catalog") && r.insert.None?
  {
  }
}
