/** Fan-out of one notification over five channels, each isolated from the others' failures. */
module Notifications {
  import opened Optional

  datatype Channel = Email | InApp | Sms | Whatsapp | Push

  datatype Provider = Smtp | Twilio | Fcm

  datatype Preference = Unset | Enabled | Disabled

  type Id = nat

  /** A call to a port with its reply; an absent reply is a thrown error. */
  datatype Call =
    | CreateNotification(notification: Option<Id>)
    | CreateDelivery(about: Id, provider: Provider, delivery: Option<Id>)
    | Send(sent: Id, via: Id, to: nat, delivered: bool)
    | FindOverrides(forced: Option<bool>)
    | FindPreference(preference: Option<Preference>)
    | ListDevices(devices: Option<seq<nat>>)
    | StoreInApp(shown: Id, stored: bool)
    | Publish(published: Id, accepted: bool)

  /** The ports, for a channel whose own calls so far are given: replies depend on nothing else. */
  datatype Ports = Ports(
    notifications: (Channel, seq<Call>) -> Option<Id>,
    deliveries: (Channel, seq<Call>) -> Option<Id>,
    transport: (Channel, seq<Call>) -> bool,
    overrides: (Channel, seq<Call>) -> Option<bool>,
    preferences: (Channel, seq<Call>) -> Option<Preference>,
    devices: seq<Call> -> Option<seq<nat>>,
    inAppStore: seq<Call> -> bool,
    realtime: seq<Call> -> bool)

  /** What a channel is to carry: for email, SMS and WhatsApp, the address to send to. */
  datatype Input = Input(hasProfile: bool, userId: Option<Id>,
                         email: Option<nat>, inApp: bool, sms: Option<nat>, whatsapp: Option<nat>, push: bool)

  function ProviderFor(ch: Channel): Provider {
    match ch
    case Sms => Twilio
    case Whatsapp => Twilio
    case Push => Fcm
    case _ => Smtp
  }

  // ------------------------------------------------------------------ one channel's calls, on values

  function RecordCalls(w: Ports, ch: Channel, own: seq<Call>): seq<Call> {
    var n := w.notifications(ch, own);
    if n.None? then [CreateNotification(None)]
    else
      var d := w.deliveries(ch, own + [CreateNotification(n)]);
      [CreateNotification(n), CreateDelivery(n.value, ProviderFor(ch), d)]
  }

  predicate Recorded(calls: seq<Call>) {
    && |calls| == 2 && calls[0].CreateNotification? && calls[0].notification.Some?
    && calls[1].CreateDelivery? && calls[1].delivery.Some?
  }

  /** Create the records, then send. */
  function SendCalls(w: Ports, ch: Channel, own: seq<Call>, to: nat): seq<Call> {
    var records := RecordCalls(w, ch, own);
    if Recorded(records)
    then records + [Send(records[0].notification.value, records[1].delivery.value, to, w.transport(ch, own + records))]
    else records
  }

  predicate AllSent(calls: seq<Call>) {
    calls == [] || (calls[|calls| - 1].Send? && calls[|calls| - 1].delivered)
  }

  /** One record and send per device; a failure ends the channel. */
  function PushCalls(w: Ports, own: seq<Call>, devices: seq<nat>): seq<Call>
    decreases |devices|
  {
    if devices == [] then []
    else
      var first := SendCalls(w, Push, own, devices[0]);
      if AllSent(first) then first + PushCalls(w, own + first, devices[1..]) else first
  }

  function GateCalls(w: Ports, ch: Channel, own: seq<Call>): seq<Call> {
    var forced := w.overrides(ch, own);
    if forced == Some(false)
    then [FindOverrides(forced), FindPreference(w.preferences(ch, own + [FindOverrides(forced)]))]
    else [FindOverrides(forced)]
  }

  /** Delivery is forced, or the recipient has not opted out of the channel. */
  predicate Passes(gate: seq<Call>) {
    || gate == [FindOverrides(Some(true))]
    || (|gate| == 2 && gate[0] == FindOverrides(Some(false)) && gate[1].FindPreference?
        && gate[1].preference.Some? && gate[1].preference.value != Disabled)
  }

  function InAppCalls(w: Ports, input: Input, own: seq<Call>): seq<Call> {
    if !input.hasProfile && input.userId.None? then []
    else
      var gate := if input.userId.Some? then GateCalls(w, InApp, own) else [];
      if input.userId.Some? && !Passes(gate) then gate
      else
        var n := w.notifications(InApp, own + gate);
        var created := gate + [CreateNotification(n)];
        if n.None? then created
        else
          var stored := created + [StoreInApp(n.value, w.inAppStore(own + created))];
          if stored[|stored| - 1].stored && input.userId.Some?
          then stored + [Publish(n.value, w.realtime(own + stored))]
          else stored
  }

  function DeviceCalls(w: Ports, own: seq<Call>): seq<Call> {
    var devices := w.devices(own);
    [ListDevices(devices)] + if devices.Some? then PushCalls(w, own + [ListDevices(devices)], devices.value) else []
  }

  function Gated(w: Ports, ch: Channel, own: seq<Call>, to: nat): seq<Call> {
    var gate := GateCalls(w, ch, own);
    if !Passes(gate) then gate
    else gate + if ch.Push? then DeviceCalls(w, own + gate) else SendCalls(w, ch, own + gate, to)
  }

  /** The calls a dispatch makes for one channel, after that channel's earlier calls `own`. */
  function ChannelCalls(w: Ports, input: Input, ch: Channel, own: seq<Call>): seq<Call> {
    match ch
    case Email => if input.email.Some? then SendCalls(w, Email, own, input.email.value) else []
    case InApp => if input.inApp then InAppCalls(w, input, own) else []
    case Sms => if input.sms.Some? && input.userId.Some? then Gated(w, Sms, own, input.sms.value) else []
    case Whatsapp => if input.whatsapp.Some? && input.userId.Some? then Gated(w, Whatsapp, own, input.whatsapp.value) else []
    case Push => if input.push && input.userId.Some? then Gated(w, Push, own, 0) else []
  }

  // ------------------------------------------------------------------ the log

  datatype Entry = Entry(channel: Channel, call: Call)

  /** A channel's own calls. */
  function Own(log: seq<Entry>, ch: Channel): seq<Call> {
    if log == [] then []
    else
      var rest := Own(log[..|log| - 1], ch);
      if log[|log| - 1].channel == ch then rest + [log[|log| - 1].call] else rest
  }

  function Tagged(ch: Channel, calls: seq<Call>): (r: seq<Entry>)
    ensures |r| == |calls|
  {
    seq(|calls|, i requires 0 <= i < |calls| => Entry(ch, calls[i]))
  }

  function Served(w: Ports, input: Input, log: seq<Entry>, ch: Channel): seq<Entry> {
    log + Tagged(ch, ChannelCalls(w, input, ch, Own(log, ch)))
  }

  /** The whole dispatch: email, in-app, SMS, WhatsApp, push. */
  function Dispatched(w: Ports, input: Input, log: seq<Entry>): seq<Entry> {
    Served(w, input, Served(w, input, Served(w, input, Served(w, input, Served(w, input, log, Email), InApp), Sms), Whatsapp), Push)
  }

  lemma OwnAppend(log: seq<Entry>, e: Entry, ch: Channel)
    ensures Own(log + [e], ch) == if e.channel == ch then Own(log, ch) + [e.call] else Own(log, ch)
  {
    assert (log + [e])[..|log|] == log;
  }

  lemma {:induction false} OwnTagged(log: seq<Entry>, ch: Channel, calls: seq<Call>, other: Channel)
    ensures Own(log + Tagged(ch, calls), other) == if other == ch then Own(log, ch) + calls else Own(log, other)
  {
    if calls == [] {
      assert log + Tagged(ch, calls) == log;
    } else {
      var init, last := calls[..|calls| - 1], calls[|calls| - 1];
      assert log + Tagged(ch, calls) == log + Tagged(ch, init) + [Entry(ch, last)];
      OwnTagged(log, ch, init, other);
      OwnAppend(log + Tagged(ch, init), Entry(ch, last), other);
      assert calls == init + [last];
    }
  }

  lemma ServedOwn(w: Ports, input: Input, log: seq<Entry>, ch: Channel, other: Channel)
    ensures Own(Served(w, input, log, ch), other) ==
              if other == ch then Own(log, ch) + ChannelCalls(w, input, ch, Own(log, ch)) else Own(log, other)
  {
    OwnTagged(log, ch, ChannelCalls(w, input, ch, Own(log, ch)), other);
  }

  /** Each channel's calls are what that channel alone decides. */
  lemma DispatchedOwn(w: Ports, input: Input, log: seq<Entry>, ch: Channel)
    ensures Own(Dispatched(w, input, log), ch) == Own(log, ch) + ChannelCalls(w, input, ch, Own(log, ch))
  {
    var l1 := Served(w, input, log, Email);
    var l2 := Served(w, input, l1, InApp);
    var l3 := Served(w, input, l2, Sms);
    var l4 := Served(w, input, l3, Whatsapp);
    ServedOwn(w, input, log, Email, ch);
    ServedOwn(w, input, l1, InApp, ch);
    ServedOwn(w, input, l2, Sms, ch);
    ServedOwn(w, input, l3, Whatsapp, ch);
    ServedOwn(w, input, l4, Push, ch);
  }

  /** The same dispatch carrying one channel alone. */
  function Only(input: Input, ch: Channel): Input {
    input.(email := if ch.Email? then input.email else None,
           inApp := ch.InApp? && input.inApp,
           sms := if ch.Sms? then input.sms else None,
           whatsapp := if ch.Whatsapp? then input.whatsapp else None,
           push := ch.Push? && input.push)
  }

  lemma OnlyMatters(w: Ports, input: Input, ch: Channel, own: seq<Call>)
    ensures ChannelCalls(w, Only(input, ch), ch, own) == ChannelCalls(w, input, ch, own)
  {
    match ch
    case Email =>
    case InApp => assert InAppCalls(w, Only(input, ch), own) == InAppCalls(w, input, own);
    case Sms =>
    case Whatsapp =>
    case Push =>
  }

  /** Non-interference: for every failure pattern and device list, a channel's calls are those of a
      dispatch that carries only that channel. */
  lemma ChannelsDoNotInterfere(w: Ports, input: Input, log: seq<Entry>, ch: Channel)
    ensures Own(Dispatched(w, input, log), ch) == Own(Dispatched(w, Only(input, ch), log), ch)
  {
    DispatchedOwn(w, input, log, ch);
    DispatchedOwn(w, Only(input, ch), log, ch);
    OnlyMatters(w, input, ch, Own(log, ch));
  }

  // ------------------------------------------------------------------ what precedes a send

  /** Every send comes right after the creation of its own notification and its own delivery record. */
  ghost predicate SendsRecorded(ch: Channel, calls: seq<Call>) {
    forall p :: 0 <= p < |calls| && calls[p].Send? ==>
      && p >= 2
      && calls[p - 2] == CreateNotification(Some(calls[p].sent))
      && calls[p - 1] == CreateDelivery(calls[p].sent, if ch.Sms? || ch.Whatsapp? then Twilio else if ch.Push? then Fcm else Smtp,
                                        Some(calls[p].via))
  }

  lemma RecordedConcat(ch: Channel, a: seq<Call>, b: seq<Call>)
    requires SendsRecorded(ch, a) && SendsRecorded(ch, b)
    ensures SendsRecorded(ch, a + b)
  {
    var c := a + b;
    forall p | 0 <= p < |c| && c[p].Send?
      ensures p >= 2 && c[p - 2] == CreateNotification(Some(c[p].sent))
      ensures c[p - 1] == CreateDelivery(c[p].sent, ProviderFor(ch), Some(c[p].via))
    {
      if p >= |a| { assert b[p - |a|].Send?; }
    }
  }

  lemma {:induction false} PushRecorded(w: Ports, own: seq<Call>, devices: seq<nat>)
    ensures SendsRecorded(Push, PushCalls(w, own, devices))
    decreases |devices|
  {
    if devices == [] {
    } else {
      var first := SendCalls(w, Push, own, devices[0]);
      PushRecorded(w, own + first, devices[1..]);
      RecordedConcat(Push, first, PushCalls(w, own + first, devices[1..]));
    }
  }

  lemma GatedRecorded(w: Ports, ch: Channel, own: seq<Call>, to: nat)
    ensures SendsRecorded(ch, Gated(w, ch, own, to))
  {
    var gate := GateCalls(w, ch, own);
    if Passes(gate) {
      if ch.Push? {
        var d := w.devices(own + gate);
        if d.Some? {
          PushRecorded(w, own + gate + [ListDevices(d)], d.value);
          RecordedConcat(ch, [ListDevices(d)], PushCalls(w, own + gate + [ListDevices(d)], d.value));
        }
        RecordedConcat(ch, gate, DeviceCalls(w, own + gate));
      } else {
        RecordedConcat(ch, gate, SendCalls(w, ch, own + gate, to));
      }
    }
  }

  lemma InAppSendsNothing(w: Ports, input: Input, own: seq<Call>)
    ensures forall p :: 0 <= p < |InAppCalls(w, input, own)| ==> !InAppCalls(w, input, own)[p].Send?
  {
  }

  /** Every email, SMS, WhatsApp and push send has its own notification and delivery record. */
  lemma EverySendIsRecorded(w: Ports, input: Input, ch: Channel, own: seq<Call>)
    ensures SendsRecorded(ch, ChannelCalls(w, input, ch, own))
  {
    match ch
    case Email =>
    case InApp => InAppSendsNothing(w, input, own);
    case Sms => if input.sms.Some? { GatedRecorded(w, Sms, own, input.sms.value); }
    case Whatsapp => if input.whatsapp.Some? { GatedRecorded(w, Whatsapp, own, input.whatsapp.value); }
    case Push => GatedRecorded(w, Push, own, 0);
  }

  /** SMS, WhatsApp and push reach a transport, and in-app creates anything for a known user, only after the
      override lookup said forced or the preference lookup said not opted out. */
  lemma GatedOnlyWhenAllowed(w: Ports, input: Input, ch: Channel, own: seq<Call>, p: nat)
    requires !ch.Email? && input.userId.Some?
    requires var calls := ChannelCalls(w, input, ch, own);
             p < |calls| && (calls[p].Send? || calls[p].CreateNotification? || calls[p].ListDevices?)
    ensures var calls := ChannelCalls(w, input, ch, own);
            || calls[0] == FindOverrides(Some(true))
            || (p > 1 && calls[0] == FindOverrides(Some(false))
                && (calls[1] == FindPreference(Some(Unset)) || calls[1] == FindPreference(Some(Enabled))))
  {
    var gate := GateCalls(w, ch, own);
    assert ChannelCalls(w, input, ch, own)[..|gate|] == gate;
  }

  // ------------------------------------------------------------------ who is reached

  /** The recipients of all sends, in order. */
  function Targets(calls: seq<Call>): seq<nat> {
    if calls == [] then [] else Target(calls[0]) + Targets(calls[1..])
  }

  function Target(c: Call): seq<nat> { if c.Send? then [c.to] else [] }

  /** The recipients of the sends that succeeded. */
  function Reached(calls: seq<Call>): seq<nat> {
    if calls == [] then [] else (if Fails(calls[0]) then [] else Target(calls[0])) + Reached(calls[1..])
  }

  predicate Fails(c: Call) {
    match c
    case CreateNotification(n) => n.None?
    case CreateDelivery(_, _, d) => d.None?
    case Send(_, _, _, delivered) => !delivered
    case _ => false
  }

  predicate NothingFails(calls: seq<Call>) {
    forall c :: c in calls ==> !Fails(c)
  }

  lemma {:induction false} TargetsConcat(a: seq<Call>, b: seq<Call>)
    ensures Targets(a + b) == Targets(a) + Targets(b)
  {
    if a == [] {
      assert a + b == b;
    } else {
      assert (a + b)[1..] == a[1..] + b;
      TargetsConcat(a[1..], b);
    }
  }

  lemma {:induction false} ReachedConcat(a: seq<Call>, b: seq<Call>)
    ensures Reached(a + b) == Reached(a) + Reached(b)
  {
    if a == [] {
      assert a + b == b;
    } else {
      assert (a + b)[1..] == a[1..] + b;
      ReachedConcat(a[1..], b);
    }
  }

  lemma Joined(a: seq<Call>, b: seq<Call>)
    ensures Targets(a + b) == Targets(a) + Targets(b) && Reached(a + b) == Reached(a) + Reached(b)
    ensures NothingFails(a + b) <==> NothingFails(a) && NothingFails(b)
  {
    TargetsConcat(a, b);
    ReachedConcat(a, b);
    assert forall c :: c in a || c in b ==> c in a + b;
  }

  lemma {:induction false} NoSends(calls: seq<Call>)
    requires forall c :: c in calls ==> !c.Send?
    ensures Targets(calls) == [] && Reached(calls) == []
  {
    if calls == [] {
    } else {
      assert calls[0] in calls;
      NoSends(calls[1..]);
    }
  }

  lemma OneSend(records: seq<Call>, send: Call)
    requires (forall c :: c in records ==> !c.Send? && !Fails(c)) && send.Send?
    ensures Targets(records + [send]) == [send.to]
    ensures Reached(records + [send]) == if send.delivered then [send.to] else []
    ensures NothingFails(records + [send]) <==> send.delivered
  {
    NoSends(records);
    Joined(records, [send]);
    assert [send][0] == send && [send][1..] == [];
    assert send in [send];
  }

  lemma SendReaches(w: Ports, ch: Channel, own: seq<Call>, to: nat)
    ensures var calls := SendCalls(w, ch, own, to);
            && Targets(calls) == (if Recorded(RecordCalls(w, ch, own)) then [to] else [])
            && Reached(calls) == (if AllSent(calls) then [to] else [])
            && (AllSent(calls) <==> NothingFails(calls))
  {
    var records, calls := RecordCalls(w, ch, own), SendCalls(w, ch, own, to);
    if Recorded(records) {
      OneSend(records, calls[2]);
      assert calls == records + [calls[2]];
    } else {
      NoSends(records);
      assert calls[|calls| - 1] in calls;
    }
  }

  lemma OneMoreReached(devices: seq<nat>, reached: seq<nat>, targets: seq<nat>)
    requires devices != [] && reached <= targets <= devices[1..]
    ensures [devices[0]] + reached <= [devices[0]] + targets <= devices
    ensures [devices[0]] + reached == devices <==> reached == devices[1..]
  {
    assert devices == [devices[0]] + devices[1..];
  }

  /** Push sends go to the devices in order, up to and including the first send that fails; they reach a prefix
      of the devices, and all of them exactly if nothing failed. */
  lemma {:induction false} PushReaches(w: Ports, own: seq<Call>, devices: seq<nat>)
    ensures var calls := PushCalls(w, own, devices);
            && Reached(calls) <= Targets(calls) <= devices && |Targets(calls)| <= |Reached(calls)| + 1
            && (Reached(calls) == devices <==> NothingFails(calls))
    decreases |devices|
  {
    if devices == [] {
    } else {
      var first := SendCalls(w, Push, own, devices[0]);
      var rest := PushCalls(w, own + first, devices[1..]);
      SendReaches(w, Push, own, devices[0]);
      if AllSent(first) {
        PushReaches(w, own + first, devices[1..]);
        Joined(first, rest);
        OneMoreReached(devices, Reached(rest), Targets(rest));
      } else {
        assert |Reached(first)| == 0 && Targets(first) <= [devices[0]] <= devices;
      }
    }
  }

  lemma GateReachesNobody(w: Ports, ch: Channel, own: seq<Call>)
    ensures var gate := GateCalls(w, ch, own); Targets(gate) == [] && Reached(gate) == [] && NothingFails(gate)
  {
    NoSends(GateCalls(w, ch, own));
  }

  lemma DevicesReached(w: Ports, own: seq<Call>)
    ensures var calls, devices := DeviceCalls(w, own), if w.devices(own).Some? then w.devices(own).value else [];
            && Reached(calls) <= Targets(calls) <= devices && |Targets(calls)| <= |Reached(calls)| + 1
            && (Reached(calls) == devices <==> NothingFails(calls))
  {
    var listed := w.devices(own);
    NoSends([ListDevices(listed)]);
    if listed.Some? {
      PushReaches(w, own + [ListDevices(listed)], listed.value);
      Joined([ListDevices(listed)], PushCalls(w, own + [ListDevices(listed)], listed.value));
    } else {
      assert DeviceCalls(w, own) == [ListDevices(listed)];
    }
  }

  /** The recipient may be contacted: delivery is forced; or it is not, and the preference, which could be looked
      up, is unset or enabled. */
  predicate MayReach(w: Ports, ch: Channel, own: seq<Call>) {
    || w.overrides(ch, own) == Some(true)
    || (w.overrides(ch, own) == Some(false)
        && w.preferences(ch, own + [FindOverrides(Some(false))]) in {Some(Unset), Some(Enabled)})
  }

  /** Both records can be created. */
  predicate RecordsCreated(w: Ports, ch: Channel, own: seq<Call>) {
    && w.notifications(ch, own).Some?
    && w.deliveries(ch, own + [CreateNotification(w.notifications(ch, own))]).Some?
  }

  /** The gate opens for exactly those who may be contacted. */
  lemma PassesIff(w: Ports, ch: Channel, own: seq<Call>)
    ensures Passes(GateCalls(w, ch, own)) <==> MayReach(w, ch, own)
  {
    var gate := GateCalls(w, ch, own);
    if w.overrides(ch, own) == Some(false) { assert |gate| == 2; } else { assert |gate| == 1; }
  }

  /** The devices a push is for: none unless it is asked for, the user is known, the gate lets it through and
      the devices could be listed. */
  function PushDevices(w: Ports, input: Input, own: seq<Call>): seq<nat> {
    var gate := GateCalls(w, Push, own);
    if input.push && input.userId.Some? && MayReach(w, Push, own) && w.devices(own + gate).Some? then w.devices(own + gate).value
    else []
  }

  /** A dispatch's push channel. */
  lemma PushChannelReaches(w: Ports, input: Input, own: seq<Call>)
    ensures var calls, devices := ChannelCalls(w, input, Push, own), PushDevices(w, input, own);
            && Reached(calls) <= Targets(calls) <= devices && |Targets(calls)| <= |Reached(calls)| + 1
            && (Reached(calls) == devices <==> NothingFails(calls))
  {
    var gate := GateCalls(w, Push, own);
    PassesIff(w, Push, own);
    GateReachesNobody(w, Push, own);
    if input.push && input.userId.Some? && Passes(gate) {
      DevicesReached(w, own + gate);
      Joined(gate, DeviceCalls(w, own + gate));
    }
  }

  function Address(input: Input, ch: Channel): Option<nat> {
    match ch
    case Email => input.email
    case Sms => input.sms
    case Whatsapp => input.whatsapp
    case _ => None
  }

  lemma GatedReaches(w: Ports, ch: Channel, own: seq<Call>, to: nat)
    requires !ch.Push?
    ensures Targets(Gated(w, ch, own, to)) ==
              if MayReach(w, ch, own) && RecordsCreated(w, ch, own + GateCalls(w, ch, own)) then [to] else []
  {
    var gate := GateCalls(w, ch, own);
    GateReachesNobody(w, ch, own);
    PassesIff(w, ch, own);
    if Passes(gate) {
      SendReaches(w, ch, own + gate, to);
      TargetsConcat(gate, SendCalls(w, ch, own + gate, to));
    }
  }

  /** An email, SMS or WhatsApp message goes to the address it was asked for, once, and exactly when it was asked
      for, both records were created, and, except for email, the user is known and the gate lets it through. */
  lemma SentIff(w: Ports, input: Input, own: seq<Call>, ch: Channel)
    requires ch.Email? || ch.Sms? || ch.Whatsapp?
    ensures var calls, gate := ChannelCalls(w, input, ch, own), if ch.Email? then [] else GateCalls(w, ch, own);
            Targets(calls) ==
              if && Address(input, ch).Some? && (ch.Email? || (input.userId.Some? && MayReach(w, ch, own)))
                 && RecordsCreated(w, ch, own + gate)
              then [Address(input, ch).value]
              else []
  {
    if ch.Email? {
      assert own + [] == own;
      if input.email.Some? { SendReaches(w, Email, own, input.email.value); }
    } else if input.userId.Some? && Address(input, ch).Some? {
      GatedReaches(w, ch, own, Address(input, ch).value);
    }
  }

  ghost predicate Creates(calls: seq<Call>) {
    exists p :: 0 <= p < |calls| && calls[p].CreateNotification?
  }

  /** A created notification is stored, and one that is stored for a known user is published, and only such. */
  ghost predicate FollowsThrough(calls: seq<Call>, known: bool) {
    && (forall p :: 0 <= p < |calls| && calls[p].CreateNotification? && calls[p].notification.Some? ==>
          p + 1 < |calls| && calls[p + 1].StoreInApp? && calls[p + 1].shown == calls[p].notification.value)
    && (forall p :: 0 <= p < |calls| && calls[p].StoreInApp? && calls[p].stored && known ==>
          p + 1 < |calls| && calls[p + 1].Publish? && calls[p + 1].published == calls[p].shown)
    && (forall p :: 0 <= p < |calls| && calls[p].Publish? ==>
          known && p >= 1 && calls[p - 1] == StoreInApp(calls[p].published, true))
  }

  /** An in-app notification is created exactly if it is asked for and addressed to a profile or a user, who, if
      known, may be contacted; what is created is stored, and published to a known user. */
  lemma InAppIff(w: Ports, input: Input, own: seq<Call>)
    ensures var calls := ChannelCalls(w, input, InApp, own);
            && (Creates(calls) <==> && input.inApp && (input.hasProfile || input.userId.Some?)
                                    && (input.userId.Some? ==> MayReach(w, InApp, own)))
            && FollowsThrough(calls, input.userId.Some?)
  {
    var calls := ChannelCalls(w, input, InApp, own);
    var gate := if input.userId.Some? then GateCalls(w, InApp, own) else [];
    PassesIff(w, InApp, own);
    if input.inApp && (input.hasProfile || input.userId.Some?) && (input.userId.Some? ==> MayReach(w, InApp, own)) {
      assert calls[|gate|].CreateNotification?;
    }
  }

  // ------------------------------------------------------------------ the dispatcher, in place

  /** The log has grown by `calls`, all of channel `ch`. */
  ghost predicate Made(before: seq<Entry>, log: seq<Entry>, ch: Channel, calls: seq<Call>) {
    log == before + Tagged(ch, calls) && Own(log, ch) == Own(before, ch) + calls
  }

  lemma TaggedConcat(ch: Channel, a: seq<Call>, b: seq<Call>)
    ensures Tagged(ch, a + b) == Tagged(ch, a) + Tagged(ch, b)
  {
  }

  lemma Compose(before: seq<Entry>, between: seq<Entry>, after: seq<Entry>, ch: Channel, a: seq<Call>, b: seq<Call>)
    requires Made(before, between, ch, a) && Made(between, after, ch, b)
    ensures Made(before, after, ch, a + b)
  {
    TaggedConcat(ch, a, b);
    assert before + Tagged(ch, a) + Tagged(ch, b) == before + (Tagged(ch, a) + Tagged(ch, b));
    assert Own(before, ch) + a + b == Own(before, ch) + (a + b);
  }

  class Dispatcher {
    const ports: Ports
    var log: seq<Entry>

    constructor (ports: Ports)
      ensures this.ports == ports && log == []
    {
      this.ports, log := ports, [];
    }

    method Note(ch: Channel, call: Call)
      modifies this
      ensures Made(old(log), log, ch, [call])
    {
      OwnAppend(log, Entry(ch, call), ch);
      log := log + [Entry(ch, call)];
      assert Tagged(ch, [call]) == [Entry(ch, call)];
    }

    method CreateRecord(ch: Channel) returns (ids: Option<(Id, Id)>)
      modifies this
      ensures Made(old(log), log, ch, RecordCalls(ports, ch, Own(old(log), ch)))
      ensures ids.Some? <==> Recorded(RecordCalls(ports, ch, Own(old(log), ch)))
      ensures ids.Some? ==> var r := RecordCalls(ports, ch, Own(old(log), ch));
                            ids.value == (r[0].notification.value, r[1].delivery.value)
    {
      var notification := ports.notifications(ch, Own(log, ch));
      Note(ch, CreateNotification(notification));
      if notification.None? { return None; }
      ghost var between := log;
      var delivery := ports.deliveries(ch, Own(log, ch));
      Note(ch, CreateDelivery(notification.value, ProviderFor(ch), delivery));
      Compose(old(log), between, log, ch, [CreateNotification(notification)],
              [CreateDelivery(notification.value, ProviderFor(ch), delivery)]);
      if delivery.None? { return None; }
      return Some((notification.value, delivery.value));
    }

    method RecordAndSend(ch: Channel, to: nat) returns (ok: bool)
      modifies this
      ensures Made(old(log), log, ch, SendCalls(ports, ch, Own(old(log), ch), to))
      ensures ok == AllSent(SendCalls(ports, ch, Own(old(log), ch), to))
    {
      var ids := CreateRecord(ch);
      if ids.None? { return false; }
      ghost var between := log;
      ok := ports.transport(ch, Own(log, ch));
      Note(ch, Send(ids.value.0, ids.value.1, to, ok));
      Compose(old(log), between, log, ch, RecordCalls(ports, ch, Own(old(log), ch)), [Send(ids.value.0, ids.value.1, to, ok)]);
    }

    method Gate(ch: Channel) returns (open: bool)
      modifies this
      ensures Made(old(log), log, ch, GateCalls(ports, ch, Own(old(log), ch)))
      ensures open == Passes(GateCalls(ports, ch, Own(old(log), ch)))
    {
      var forced := ports.overrides(ch, Own(log, ch));
      Note(ch, FindOverrides(forced));
      if forced != Some(false) { return forced == Some(true); }
      ghost var between := log;
      var preference := ports.preferences(ch, Own(log, ch));
      Note(ch, FindPreference(preference));
      Compose(old(log), between, log, ch, [FindOverrides(forced)], [FindPreference(preference)]);
      return preference.Some? && preference.value != Disabled;
    }

    method PushToDevices(devices: seq<nat>)
      modifies this
      ensures Made(old(log), log, Push, PushCalls(ports, Own(old(log), Push), devices))
    {
      ghost var own, done := Own(log, Push), [];
      var i := 0;
      assert Tagged(Push, []) == [];
      while i < |devices|
        invariant 0 <= i <= |devices|
        invariant Made(old(log), log, Push, done)
        invariant PushCalls(ports, own, devices) == done + PushCalls(ports, own + done, devices[i..])
      {
        ghost var before, sent := log, SendCalls(ports, Push, own + done, devices[i]);
        var ok := RecordAndSend(Push, devices[i]);
        Compose(old(log), before, log, Push, done, sent);
        Advance(ports, own, done, devices, i);
        done := done + sent;
        if !ok { return; }
        i := i + 1;
      }
    }

    method DispatchInApp(input: Input)
      modifies this
      ensures Made(old(log), log, InApp, InAppCalls(ports, input, Own(old(log), InApp)))
    {
      ghost var own, gate := Own(log, InApp), [];
      assert Tagged(InApp, []) == [];
      if !input.hasProfile && input.userId.None? { return; }
      if input.userId.Some? {
        gate := GateCalls(ports, InApp, own);
        var open := Gate(InApp);
        if !open { return; }
      }
      ghost var before := log;
      var notification := ports.notifications(InApp, Own(log, InApp));
      Note(InApp, CreateNotification(notification));
      Compose(old(log), before, log, InApp, gate, [CreateNotification(notification)]);
      if notification.None? { return; }
      before := log;
      var stored := ports.inAppStore(Own(log, InApp));
      Note(InApp, StoreInApp(notification.value, stored));
      ghost var created := gate + [CreateNotification(notification)];
      Compose(old(log), before, log, InApp, created, [StoreInApp(notification.value, stored)]);
      if !stored || input.userId.None? { return; }
      before := log;
      var accepted := ports.realtime(Own(log, InApp));
      Note(InApp, Publish(notification.value, accepted));
      Compose(old(log), before, log, InApp, created + [StoreInApp(notification.value, stored)], [Publish(notification.value, accepted)]);
    }

    method ListAndPush()
      modifies this
      ensures Made(old(log), log, Push, DeviceCalls(ports, Own(old(log), Push)))
    {
      var devices := ports.devices(Own(log, Push));
      Note(Push, ListDevices(devices));
      if devices.Some? {
        ghost var before := log;
        PushToDevices(devices.value);
        Compose(old(log), before, log, Push, [ListDevices(devices)], PushCalls(ports, Own(before, Push), devices.value));
      }
    }

    method DispatchGated(ch: Channel, to: nat)
      modifies this
      ensures Made(old(log), log, ch, Gated(ports, ch, Own(old(log), ch), to))
    {
      var open := Gate(ch);
      if !open { return; }
      ghost var before := log;
      if ch.Push? {
        ListAndPush();
        Compose(old(log), before, log, ch, GateCalls(ports, ch, Own(old(log), ch)), DeviceCalls(ports, Own(before, ch)));
      } else {
        var _ := RecordAndSend(ch, to);
        Compose(old(log), before, log, ch, GateCalls(ports, ch, Own(old(log), ch)), SendCalls(ports, ch, Own(before, ch), to));
      }
    }

    /** Whatever fails inside a channel ends that channel only. */
    method Dispatch(input: Input)
      modifies this
      ensures log == Dispatched(ports, input, old(log))
    {
      var canReachUser := input.userId.Some?;
      NothingServed(log);
      if input.email.Some? {
        var _ := RecordAndSend(Email, input.email.value);
      }
      assert log == Served(ports, input, old(log), Email);
      label email:
      NothingServed(log);
      if input.inApp { DispatchInApp(input); }
      assert log == Served(ports, input, old@email(log), InApp);
      label inApp:
      NothingServed(log);
      if input.sms.Some? && canReachUser { DispatchGated(Sms, input.sms.value); }
      assert log == Served(ports, input, old@inApp(log), Sms);
      label sms:
      NothingServed(log);
      if input.whatsapp.Some? && canReachUser { DispatchGated(Whatsapp, input.whatsapp.value); }
      assert log == Served(ports, input, old@sms(log), Whatsapp);
      label whatsapp:
      NothingServed(log);
      if input.push && canReachUser { DispatchGated(Push, 0); }
      assert log == Served(ports, input, old@whatsapp(log), Push);
    }
  }

  lemma NothingServed(log: seq<Entry>)
    ensures forall ch :: log + Tagged(ch, []) == log
  {
  }

  /** One turn of the loop over devices. */
  lemma Advance(w: Ports, own: seq<Call>, done: seq<Call>, devices: seq<nat>, i: nat)
    requires i < |devices|
    ensures var sent := SendCalls(w, Push, own + done, devices[i]);
            done + PushCalls(w, own + done, devices[i..]) ==
              if AllSent(sent) then done + sent + PushCalls(w, own + (done + sent), devices[i + 1..]) else done + sent
  {
    var sent := SendCalls(w, Push, own + done, devices[i]);
    assert devices[i..][0] == devices[i] && devices[i..][1..] == devices[i + 1..];
    assert own + done + sent == own + (done + sent);
    var rest := PushCalls(w, own + done + sent, devices[i + 1..]);
    assert done + (sent + rest) == done + sent + rest;
  }
}
