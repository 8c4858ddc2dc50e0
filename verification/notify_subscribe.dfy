/**
  `POST /api/notify/subscribe`: resolving the user by external id and
  building one subscription row per channel that carries an address.
 */
module NotifySubscribe {
  import opened Wrappers

  /** The channels, in the order the handler visits them. */
  datatype Channel = Email | Whatsapp | Telegram

  function ChannelRank(ch: Channel): nat {
    match ch
    case Email => 0
    case Whatsapp => 1
    case Telegram => 2
  }

  datatype ChannelConfig = ChannelConfig(address: string, consent: Option<bool>)

  datatype SubscribeBody = SubscribeBody(
    externalId: string,
    email: Option<ChannelConfig>,
    whatsapp: Option<ChannelConfig>,
    telegram: Option<ChannelConfig>)

  function ConfigOf(body: SubscribeBody, ch: Channel): Option<ChannelConfig> {
    match ch
    case Email => body.email
    case Whatsapp => body.whatsapp
    case Telegram => body.telegram
  }

  /** `cfg?.address` is truthy. */
  predicate HasAddress(cfg: Option<ChannelConfig>) {
    cfg.Some? && cfg.value.address != ""
  }

  datatype SubscriptionRow = SubscriptionRow(userId: string, channel: Channel, address: string, consent: bool)

  /** The row for one channel, when its configuration carries an address;
      consent defaults to true. */
  function RowFor(userId: string, body: SubscribeBody, ch: Channel): (r: seq<SubscriptionRow>)
    ensures |r| <= 1
    ensures |r| == 1 <==> HasAddress(ConfigOf(body, ch))
    ensures |r| == 1 ==>
      var cfg := ConfigOf(body, ch).value;
      r[0] == SubscriptionRow(userId, ch, cfg.address, cfg.consent.GetOr(true))
  {
    var cfg := ConfigOf(body, ch);
    if HasAddress(cfg) then [SubscriptionRow(userId, ch, cfg.value.address, cfg.value.consent.GetOr(true))]
    else []
  }

  /** The rows to upsert, visiting email, WhatsApp and Telegram in that order. */
  function ChannelRows(userId: string, body: SubscribeBody): (rows: seq<SubscriptionRow>)
    ensures |rows| <= 3
    ensures forall i :: 0 <= i < |rows| ==> rows[i].userId == userId && rows[i].address != ""
    ensures forall i, j :: 0 <= i < j < |rows| ==> ChannelRank(rows[i].channel) < ChannelRank(rows[j].channel)
  {
    RowFor(userId, body, Email) + RowFor(userId, body, Whatsapp) + RowFor(userId, body, Telegram)
  }

  /** A channel gets a row exactly when its configuration carries an address,
      and that row copies the address and the consent (default true). */
  lemma ChannelRowsComplete(userId: string, body: SubscribeBody, ch: Channel)
    ensures var rows := ChannelRows(userId, body);
      (exists i :: 0 <= i < |rows| && rows[i].channel == ch) <==> HasAddress(ConfigOf(body, ch))
    ensures var rows := ChannelRows(userId, body);
      forall i :: 0 <= i < |rows| && rows[i].channel == ch ==>
        rows[i].address == ConfigOf(body, ch).value.address
        && rows[i].consent == ConfigOf(body, ch).value.consent.GetOr(true)
  {
    var e, w, t := RowFor(userId, body, Email), RowFor(userId, body, Whatsapp), RowFor(userId, body, Telegram);
    var rows := ChannelRows(userId, body);
    assert rows == e + w + t;
    forall i | 0 <= i < |rows|
      ensures rows[i] == if i < |e| then e[i] else if i < |e| + |w| then w[i - |e|] else t[i - |e| - |w|]
    {
    }
    if HasAddress(ConfigOf(body, ch)) {
      var k := match ch case Email => 0 case Whatsapp => |e| case Telegram => |e| + |w|;
      assert rows[k].channel == ch;
    }
  }

  /** A subscription as the store returns it after the upsert: its row id
      and the row. */
  datatype StoredSubscription = StoredSubscription(id: string, row: SubscriptionRow)

  /** What the handler answers after a successful lookup or insert: the
      "No channels provided" message, or the subscriptions the upsert
      returned. */
  datatype SubscribeAnswer =
    | NoChannels
    | Subscribed(subscriptions: seq<StoredSubscription>)

  /** The `users` row inserted for an external id not found: the id doubles
      as the display name. */
  datatype NewUserRow = NewUserRow(externalId: string, displayName: string)

  /** The reply, the user row inserted (if any) and the rows sent to the
      upsert (if any). */
  datatype SubscribeResult = SubscribeResult(
    reply: Reply<SubscribeAnswer>, userInsert: Option<NewUserRow>, upsert: Option<seq<SubscriptionRow>>)

  /** The handler. `found` is the user looked up by external id, `created` the
      outcome of inserting one when none was found, and `upserted` the outcome
      of the upsert: the stored subscriptions or the store's error. */
  function Subscribe(
    verb: string, body: Option<SubscribeBody>,
    found: Option<string>, created: StoreResult<string>, upserted: StoreResult<seq<StoredSubscription>>)
    : (r: SubscribeResult)
    ensures verb != "POST" ==> r == SubscribeResult(Refused(405, "Method Not Allowed"), None, None)
    ensures verb == "POST" && (body.None? || body.value.externalId == "") ==>
      r == SubscribeResult(Refused(400, "Missing externalId"), None, None)
    // a user is inserted exactly when the lookup finds none, named by the id
    ensures r.userInsert.Some? <==> verb == "POST" && body.Some? && body.value.externalId != "" && found.None?
    ensures r.userInsert.Some? ==> r.userInsert.value == NewUserRow(body.value.externalId, body.value.externalId)
    ensures verb == "POST" && body.Some? && body.value.externalId != "" && found.None? && created.StoreErr? ==>
      r.reply == Refused(500, created.message) && r.upsert.None?
    // once the user is known: nothing to store gives the "no channels" answer,
    // otherwise the rows are upserted and the store's answer is passed on
    ensures verb == "POST" && body.Some? && body.value.externalId != "" && (found.Some? || created.StoreOk?) ==>
      var userId := if found.Some? then found.value else created.data;
      && ((forall ch :: !HasAddress(ConfigOf(body.value, ch))) ==> r.reply == Answered(NoChannels) && r.upsert.None?)
      && ((exists ch :: HasAddress(ConfigOf(body.value, ch))) ==>
            && r.upsert == Some(ChannelRows(userId, body.value))
            && (upserted.StoreErr? ==> r.reply == Refused(500, upserted.message))
            && (upserted.StoreOk? ==> r.reply == Answered(Subscribed(upserted.data))))
    ensures r.upsert.Some? ==> 1 <= |r.upsert.value| <= 3
    ensures r.reply.Answered? ==> verb == "POST" && body.Some? && body.value.externalId != ""
    ensures r.reply.Answered? && r.reply.body.NoChannels? ==>
      forall ch :: !HasAddress(ConfigOf(body.value, ch))
  {
    if verb != "POST" then SubscribeResult(Refused(405, "Method Not Allowed"), None, None)
    else if body.None? || body.value.externalId == "" then SubscribeResult(Refused(400, "Missing externalId"), None, None)
    else
      var insert := if found.None? then Some(NewUserRow(body.value.externalId, body.value.externalId)) else None;
      if found.None? && created.StoreErr? then SubscribeResult(Refused(500, created.message), insert, None)
      else
        var userId := if found.Some? then found.value else created.data;
        var rows := ChannelRows(userId, body.value);
        assert |rows| == 0 <==> forall ch :: !HasAddress(ConfigOf(body.value, ch)) by {
          forall ch ensures (exists i :: 0 <= i < |rows| && rows[i].channel == ch) <==> HasAddress(ConfigOf(body.value, ch)) {
            ChannelRowsComplete(userId, body.value, ch);
          }
        }
        if |rows| == 0 then SubscribeResult(Answered(NoChannels), insert, None)
        else if upserted.StoreErr? then SubscribeResult(Refused(500, upserted.message), insert, Some(rows))
        else SubscribeResult(Answered(Subscribed(upserted.data)), insert, Some(rows))
  }
}
