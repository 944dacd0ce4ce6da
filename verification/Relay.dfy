/** The operator pager relay: delivering one page, and the loop over a batch of messages. */
module Relay {
  import opened Common

  /** What a channel answered; no status is a transport error. */
  datatype Response = Response(status: Option<int>, ref: Option<string>)

  predicate Accepted(r: Response) { r.status.Some? && 200 <= r.status.value < 300 }

  predicate Permanent(r: Response) { r.status.Some? && 400 <= r.status.value < 500 }

  /** A delivery channel. Its answers may be anything from call to call; `given` are those so far. */
  class Channel {
    const name: string
    const answers: nat -> Response
    var given: seq<Response>

    constructor (name: string, answers: nat -> Response)
      ensures this.name == name && this.answers == answers && given == []
    {
      this.name, this.answers, given := name, answers, [];
    }

    method Send() returns (r: Response)
      modifies this
      ensures r == answers(|old(given)|) && given == old(given) + [r]
    {
      r := answers(|given|);
      given := given + [r];
    }
  }

  datatype Outcome = VendorTook | FallbackTook | Rejected | Dropped | Suppressed

  datatype Delivery = Delivery(outcome: Outcome, adapter: string, vendorStatus: Option<int>, ref: Option<string>,
                               attempts: nat, fallbackStatus: Option<int>)

  /** A parsed message: a page, of which the rendered text may ask the operator for something, or
      something not to deliver. */
  datatype Message =
    | Page(condition: Option<string>, kind: string, asks: bool)
    | Drop(reason: string, suppressed: bool, condition: Option<string>, kind: string)

  datatype Metrics = Metrics(vendorAccepted: nat, vendorRejected: nat, fallbackForwarded: nat, dropped: nat)

  datatype Record = Record(outcome: Outcome, metrics: Metrics, condition: Option<string>, kind: string,
                           dropReason: Option<string>, delivery: Option<Delivery>)

  /** Whether the loop hands the message to a channel: a page that would ask is dropped instead. */
  predicate Pages(m: Message) { m.Page? && !m.asks }

  // ---------------------------------------------------------------- one page

  function Last(rs: seq<Response>): Response
    requires rs != []
  {
    rs[|rs| - 1]
  }

  /** The answers a delivery collects: the primary's, tried again once when the first answer was neither
      taken nor refused for good, and the fallback's when the primary took nothing. */
  ghost predicate Tried(primary: seq<Response>, second: seq<Response>, fallback: bool) {
    && 1 <= |primary| <= 2 && (|primary| == 1 <==> Accepted(primary[0]) || Permanent(primary[0]))
    && |second| == if fallback && !Accepted(Last(primary)) then 1 else 0
  }

  function TookBy(primary: seq<Response>, second: seq<Response>): Outcome
    requires primary != []
  {
    if Accepted(Last(primary)) then VendorTook
    else if second != [] && Accepted(second[0]) then FallbackTook
    else Rejected
  }

  function Oks(rs: seq<Response>): nat {
    if rs == [] then 0 else (if Accepted(rs[0]) then 1 else 0) + Oks(rs[1..])
  }

  lemma OksOfOne(r: Response)
    ensures Oks([r]) == if Accepted(r) then 1 else 0
  {
  }

  /** A page is taken at most once, and is rejected exactly when it was never taken. */
  lemma TakenAtMostOnce(primary: seq<Response>, second: seq<Response>, fallback: bool)
    requires Tried(primary, second, fallback)
    ensures Oks(primary) + Oks(second) == if TookBy(primary, second) == Rejected then 0 else 1
    ensures TookBy(primary, second) == VendorTook <==> Oks(primary) == 1
  {
    OksOfOne(Last(primary));
    if |primary| == 1 {
      assert primary == [Last(primary)];
    } else {
      assert primary[1..] == [Last(primary)];
    }
    if second != [] {
      OksOfOne(second[0]);
      assert second == [second[0]];
    }
  }

  // ---------------------------------------------------------------- the record

  function MetricsOf(o: Outcome): Metrics {
    match o
    case VendorTook => Metrics(1, 0, 0, 0)
    case FallbackTook => Metrics(0, 1, 1, 0)
    case Rejected => Metrics(0, 1, 0, 0)
    case Dropped => Metrics(0, 0, 0, 1)
    case Suppressed => Metrics(0, 0, 0, 0)
  }

  /** outcome_record for a message that is not delivered. */
  method DropRecord(reason: string, suppressed: bool, condition: Option<string>, kind: string) returns (r: Record)
    ensures r.outcome == if suppressed then Suppressed else Dropped
    ensures r.metrics == MetricsOf(r.outcome) && r.dropReason == Some(reason) && r.delivery == None
    ensures r.condition == condition && r.kind == kind
  {
    var metrics := Metrics(0, 0, 0, 0);
    var outcome := if suppressed then Suppressed else Dropped;
    if !suppressed { metrics := metrics.(dropped := 1); }
    return Record(outcome, metrics, condition, kind, Some(reason), None);
  }

  /** outcome_record for a delivery. */
  method DeliveryRecord(d: Delivery, condition: Option<string>, kind: string) returns (r: Record)
    requires d.outcome in {VendorTook, FallbackTook, Rejected}
    ensures r.outcome == d.outcome && r.metrics == MetricsOf(r.outcome) && r.dropReason == None && r.delivery == Some(d)
    ensures r.condition == condition && r.kind == kind
  {
    var metrics := Metrics(0, 0, 0, 0);
    if d.outcome == VendorTook {
      metrics := metrics.(vendorAccepted := 1);
    } else if d.outcome == FallbackTook {
      metrics := metrics.(vendorRejected := 1, fallbackForwarded := 1);
    } else {
      metrics := metrics.(vendorRejected := 1);
    }
    return Record(d.outcome, metrics, condition, kind, None, Some(d));
  }

  /** What a handled message leaves: its record, and the answers collected for it. */
  datatype Trail = Trail(record: Record, primary: seq<Response>, second: seq<Response>)

  /** The record of a message says what happened to it. */
  ghost predicate Handled(m: Message, t: Trail, fallback: bool) {
    && t.record.condition == m.condition && t.record.kind == m.kind && t.record.metrics == MetricsOf(t.record.outcome)
    && (!Pages(m) ==>
          && t.primary == [] && t.second == [] && t.record.delivery == None
          && t.record.dropReason == Some(if m.Page? then "asks" else m.reason)
          && t.record.outcome == if m.Drop? && m.suppressed then Suppressed else Dropped)
    && (Pages(m) ==>
          && Tried(t.primary, t.second, fallback) && t.record.dropReason == None
          && t.record.outcome == TookBy(t.primary, t.second)
          && t.record.delivery.Some? && Faithful(t.record.delivery.value, t.primary, t.second))
  }

  ghost predicate Faithful(d: Delivery, primary: seq<Response>, second: seq<Response>)
    requires primary != []
  {
    && d.outcome == TookBy(primary, second) && d.attempts == |primary| && d.vendorStatus == Last(primary).status
    && d.fallbackStatus == (if second == [] then None else second[0].status)
    && d.ref == match d.outcome
                case VendorTook => Last(primary).ref
                case FallbackTook => if second == [] then None else second[0].ref
                case _ => None
  }

  // ---------------------------------------------------------------- the handler

  /** The first `n` messages have been handled, each with its record and trail. */
  ghost predicate HandledUpTo(messages: seq<Message>, n: nat, emitted: seq<Record>, trails: seq<Trail>, fallback: bool) {
    && |trails| == |emitted| == n <= |messages|
    && forall i :: 0 <= i < n ==> trails[i].record == emitted[i] && Handled(messages[i], trails[i], fallback)
  }

  ghost predicate AllHandled(messages: seq<Message>, emitted: seq<Record>, trails: seq<Trail>, fallback: bool) {
    HandledUpTo(messages, |messages|, emitted, trails, fallback)
  }

  predicate AnyRejected(emitted: seq<Record>) { exists i :: 0 <= i < |emitted| && emitted[i].outcome == Rejected }

  lemma OneMoreMessage(messages: seq<Message>, n: nat, emitted: seq<Record>, trails: seq<Trail>, fallback: bool, t: Trail)
    requires HandledUpTo(messages, n, emitted, trails, fallback) && n < |messages| && Handled(messages[n], t, fallback)
    ensures HandledUpTo(messages, n + 1, emitted + [t.record], trails + [t], fallback)
    ensures AnyRejected(emitted + [t.record]) <==> AnyRejected(emitted) || t.record.outcome == Rejected
  {
    var more := emitted + [t.record];
    assert more[n] == t.record && forall i :: 0 <= i < n ==> more[i] == emitted[i];
  }

  class PagerRelay {
    const adapter: Channel
    const fallback: Channel?

    constructor (adapter: Channel, fallback: Channel?)
      ensures this.adapter == adapter && this.fallback == fallback
    {
      this.adapter, this.fallback := adapter, fallback;
    }

    /** The fallback is used only when it is another channel than the primary, by name. */
    predicate HasFallback() { fallback != null && fallback.name != adapter.name }

    ghost function Channels(): set<object> { if fallback == null then {adapter} else {adapter, fallback} }

    /** deliver */
    method Deliver() returns (d: Delivery, ghost primary: seq<Response>, ghost second: seq<Response>)
      modifies Channels()
      ensures Tried(primary, second, HasFallback()) && Faithful(d, primary, second)
      ensures d.adapter == adapter.name
      ensures adapter.given == old(adapter.given) + primary
      ensures fallback != null && fallback != adapter ==> fallback.given == old(fallback.given) + second
    {
      var attempts := 1;
      var resp := adapter.Send();
      primary, second := [resp], [];
      if !Accepted(resp) && !Permanent(resp) {
        attempts := 2;
        resp := adapter.Send();
        primary := primary + [resp];
      }
      if Accepted(resp) {
        return Delivery(VendorTook, adapter.name, resp.status, resp.ref, attempts, None), primary, second;
      }
      if fallback != null && fallback.name != adapter.name {
        var fb := fallback.Send();
        second := [fb];
        if Accepted(fb) {
          return Delivery(FallbackTook, adapter.name, resp.status, fb.ref, attempts, fb.status), primary, second;
        }
        return Delivery(Rejected, adapter.name, resp.status, None, attempts, fb.status), primary, second;
      }
      return Delivery(Rejected, adapter.name, resp.status, None, attempts, None), primary, second;
    }

    /** One turn of the handler's loop. */
    method HandleOne(m: Message) returns (record: Record, ghost trail: Trail)
      modifies Channels()
      ensures trail.record == record && Handled(m, trail, HasFallback())
      ensures adapter.given == old(adapter.given) + trail.primary
      ensures fallback != null && fallback != adapter ==> fallback.given == old(fallback.given) + trail.second
    {
      var parsed := m;
      if m.Page? && m.asks { parsed := Drop("asks", false, m.condition, m.kind); }
      if parsed.Drop? {
        record := DropRecord(parsed.reason, parsed.suppressed, parsed.condition, parsed.kind);
        trail := Trail(record, [], []);
      } else {
        var d; ghost var primary, second;
        d, primary, second := Deliver();
        record := DeliveryRecord(d, parsed.condition, parsed.kind);
        trail := Trail(record, primary, second);
      }
    }

    /** handler: every message is handled and its record emitted before the call fails for any of them. */
    method Handler(messages: seq<Message>) returns (emitted: seq<Record>, raised: bool, ghost trails: seq<Trail>)
      modifies Channels()
      ensures AllHandled(messages, emitted, trails, HasFallback())
      ensures raised <==> AnyRejected(emitted)
      ensures adapter.given == old(adapter.given) + Primaries(trails)
      ensures fallback != null && fallback != adapter ==> fallback.given == old(fallback.given) + Seconds(trails)
    {
      emitted, raised, trails := [], false, [];
      var i := 0;
      while i < |messages|
        invariant 0 <= i <= |messages| && HandledUpTo(messages, i, emitted, trails, HasFallback())
        invariant raised <==> AnyRejected(emitted)
        invariant adapter.given == old(adapter.given) + Primaries(trails)
        invariant fallback != null && fallback != adapter ==> fallback.given == old(fallback.given) + Seconds(trails)
      {
        var record; ghost var trail;
        record, trail := HandleOne(messages[i]);
        raised := raised || record.outcome == Rejected;
        OneMoreMessage(messages, i, emitted, trails, HasFallback(), trail);
        OneMoreTrail(trails, trail, old(adapter.given), if fallback == null then [] else old(fallback.given));
        emitted, trails := emitted + [record], trails + [trail];
        i := i + 1;
      }
    }
  }

  /** Every answer the primary gave over a batch, and the fallback. */
  ghost function Primaries(trails: seq<Trail>): seq<Response> {
    if trails == [] then [] else Primaries(trails[..|trails| - 1]) + trails[|trails| - 1].primary
  }

  ghost function Seconds(trails: seq<Trail>): seq<Response> {
    if trails == [] then [] else Seconds(trails[..|trails| - 1]) + trails[|trails| - 1].second
  }

  lemma OneMoreTrail(trails: seq<Trail>, t: Trail, a: seq<Response>, b: seq<Response>)
    ensures a + Primaries(trails) + t.primary == a + Primaries(trails + [t])
    ensures b + Seconds(trails) + t.second == b + Seconds(trails + [t])
  {
    assert (trails + [t])[..|trails|] == trails;
  }

  // ---------------------------------------------------------------- what a batch adds up to

  function Totals(records: seq<Record>): Metrics {
    if records == [] then Metrics(0, 0, 0, 0)
    else
      var n := |records| - 1;
      var t, m := Totals(records[..n]), records[n].metrics;
      Metrics(t.vendorAccepted + m.vendorAccepted, t.vendorRejected + m.vendorRejected,
              t.fallbackForwarded + m.fallbackForwarded, t.dropped + m.dropped)
  }

  function Count(records: seq<Record>, o: Outcome): nat {
    if records == [] then 0
    else Count(records[..|records| - 1], o) + if records[|records| - 1].outcome == o then 1 else 0
  }

  function Paged(messages: seq<Message>): nat {
    if messages == [] then 0
    else Paged(messages[..|messages| - 1]) + if Pages(messages[|messages| - 1]) then 1 else 0
  }

  lemma PrefixHandled(messages: seq<Message>, emitted: seq<Record>, trails: seq<Trail>, fallback: bool, n: nat)
    requires AllHandled(messages, emitted, trails, fallback) && n < |messages|
    ensures AllHandled(messages[..n], emitted[..n], trails[..n], fallback)
    ensures Handled(messages[n], trails[n], fallback) && trails[n].record == emitted[n]
  {
  }

  lemma OneRecordCounts(m: Message, t: Trail, fallback: bool)
    requires Handled(m, t, fallback)
    ensures var x, o := t.record.metrics, t.record.outcome;
      && x.vendorAccepted + x.vendorRejected + x.dropped + (if o == Suppressed then 1 else 0) == 1
      && x.vendorAccepted + x.vendorRejected == (if Pages(m) then 1 else 0)
      && x.vendorRejected == x.fallbackForwarded + (if o == Rejected then 1 else 0)
  {
  }

  /** For any batch and any answers: the metrics account for every message once, counting those
      suppressed; pages are the ones taken or refused by the vendor; and what the fallback forwarded is
      part of what the vendor refused, the rest being the rejections. */
  lemma {:induction false} MetricsConserve(messages: seq<Message>, emitted: seq<Record>, trails: seq<Trail>, fallback: bool)
    requires AllHandled(messages, emitted, trails, fallback)
    ensures var t := Totals(emitted);
      && t.vendorAccepted + t.vendorRejected + t.dropped + Count(emitted, Suppressed) == |messages|
      && t.vendorAccepted + t.vendorRejected == Paged(messages)
      && t.vendorRejected == t.fallbackForwarded + Count(emitted, Rejected)
  {
    if messages != [] {
      var n := |messages| - 1;
      PrefixHandled(messages, emitted, trails, fallback, n);
      OneRecordCounts(messages[n], trails[n], fallback);
      MetricsConserve(messages[..n], emitted[..n], trails[..n], fallback);
    }
  }

  /** For any batch and any answers: no page is taken twice, each gets at most two primary tries and one
      fallback, what is not paged is sent nowhere, and the call fails exactly when some page was taken
      by no channel. */
  lemma EveryPageOnce(messages: seq<Message>, emitted: seq<Record>, trails: seq<Trail>, fallback: bool, raised: bool)
    requires AllHandled(messages, emitted, trails, fallback)
    requires raised <==> AnyRejected(emitted)
    ensures forall i :: 0 <= i < |messages| ==> TakenBy(trails[i]) <= (if Pages(messages[i]) then 1 else 0)
    ensures forall i :: 0 <= i < |messages| ==> |trails[i].primary| <= 2 && |trails[i].second| <= (if fallback then 1 else 0)
    ensures forall i :: 0 <= i < |messages| ==> (trails[i].primary != [] <==> Pages(messages[i]))
    ensures raised <==> exists i :: 0 <= i < |messages| && Pages(messages[i]) && TakenBy(trails[i]) == 0
  {
    forall i | 0 <= i < |messages|
      ensures TakenBy(trails[i]) <= (if Pages(messages[i]) then 1 else 0)
      ensures |trails[i].primary| <= 2 && |trails[i].second| <= (if fallback then 1 else 0)
      ensures trails[i].primary != [] <==> Pages(messages[i])
      ensures emitted[i].outcome == Rejected <==> Pages(messages[i]) && TakenBy(trails[i]) == 0
    {
      if Pages(messages[i]) { TakenAtMostOnce(trails[i].primary, trails[i].second, fallback); }
    }
  }

  /** The 2xx answers a message collected. */
  ghost function TakenBy(t: Trail): nat { Oks(t.primary) + Oks(t.second) }
}
