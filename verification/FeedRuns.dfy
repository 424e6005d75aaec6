// What subscribers and senders of event/feed.go can count on, over every interleaving.
module FeedRuns {
  import opened Base
  import opened Feed

  // ----- Who is subscribed.

  ghost function Subscribed(events: seq<Event>): multiset<Chan> {
    if events == [] then multiset{}
    else (if events[0].Subscribe? then multiset{events[0].ch} else multiset{}) + Subscribed(events[1..])
  }

  ghost function Unsubscribed(events: seq<Event>): multiset<Chan> {
    if events == [] then multiset{}
    else (if events[0].Unsubscribe? then multiset{events[0].ch} else multiset{}) + Unsubscribed(events[1..])
  }

  lemma {:induction false} NotUnsubscribed(events: seq<Event>, ch: Chan)
    requires Unsubscribe(ch) !in events
    ensures Unsubscribed(events)[ch] == 0
  {
    if events != [] {
      assert events[0] in events;
      NotUnsubscribed(events[1..], ch);
    }
  }

  lemma DeliverKeepsHolders(s: State, e: Event)
    requires Enabled(s, e) && (e.Try? || e.SelectSend?)
    ensures Next(s, e).holders == s.holders
  {
  }

  lemma HoldersStep(s: State, e: Event)
    requires Enabled(s, e)
    ensures Next(s, e).holders + Unsubscribed([e]) == s.holders + Subscribed([e])
  {
    hide Find, Swap, RemoveAt, Deliver;
    if e.Try? || e.SelectSend? {
      DeliverKeepsHolders(s, e);
    }
    assert [e][1..] == [];
    if e.Unsubscribe? {
      assert s.holders - multiset{e.ch} + multiset{e.ch} == s.holders;
    }
  }

  lemma HeadFirst(events: seq<Event>)
    requires events != []
    ensures Subscribed(events) == Subscribed([events[0]]) + Subscribed(events[1..])
    ensures Unsubscribed(events) == Unsubscribed([events[0]]) + Unsubscribed(events[1..])
  {
    assert [events[0]][1..] == [];
  }

  // The subscriptions in force are those asked for and not cancelled.
  lemma {:induction false} HoldersBalance(s: State, events: seq<Event>, t: State)
    requires Run(s, events, t)
    ensures t.holders + Unsubscribed(events) == s.holders + Subscribed(events)
    decreases events
  {
    hide Next, Enabled;
    if events != [] {
      var s', e, rest := Next(s, events[0]), [events[0]], events[1..];
      HoldersBalance(s', rest, t);
      HoldersStep(s, events[0]);
      HeadFirst(events);
      calc {
        t.holders + Unsubscribed(events);
        (t.holders + Unsubscribed(rest)) + Unsubscribed(e);
        (s'.holders + Unsubscribed(e)) + Subscribed(rest);
        s.holders + Subscribed(events);
      }
    }
  }

  // Every case belongs to a subscription in force or to a cancellation under way.
  lemma CasesAreSubscriptions(events: seq<Event>, t: State)
    requires Run(INIT, events, t)
    ensures t.holders + Unsubscribed(events) == Subscribed(events)
    ensures multiset(t.inbox) + multiset(t.subs) + Unsubscribed(events) == Subscribed(events) + t.leaving + Locked(t)
  {
    hide Run, Find;
    HoldersBalance(INIT, events, t);
    FeedIsConsistent(events, t);
    calc {
      multiset(t.inbox) + multiset(t.subs) + Unsubscribed(events);
      t.holders + t.leaving + Locked(t) + Unsubscribed(events);
      (t.holders + Unsubscribed(events)) + t.leaving + Locked(t);
    }
  }

  // ----- Who is served.

  // A Send begins with every subscription there is, those still in the inbox included.
  lemma MergeTakesEveryone(s: State)
    requires Inv(s) && Enabled(s, MergeInbox)
    ensures var t := Next(s, MergeInbox);
            && t.round.Some? && t.round.value.start == s.holders + s.leaving && t.inbox == []
            && multiset(t.subs) == s.holders + s.leaving && t.round.value.active == |t.subs|
            && t.holders == s.holders && t.leaving == s.leaving
            && t.round.value.dropped == t.round.value.retracted == t.round.value.delivered == multiset{}
  {
    hide RoundInv;
    assert multiset(s.subs + s.inbox) == multiset(s.inbox) + multiset(s.subs);
    assert s.holders + s.leaving + Locked(s) == s.holders + s.leaving;
  }

  // Cancellations that wait or were taken note of in this round.
  ghost function Gone(s: State): multiset<Chan>
    requires s.round.Some?
  {
    s.leaving + s.round.value.dropped + s.round.value.retracted
  }

  lemma RoundStep(s: State, e: Event)
    requires Inv(s) && s.round.Some? && Enabled(s, e) && e != EndSend
    ensures var t := Next(s, e);
            t.round.Some? && t.round.value.start == s.round.value.start && Gone(t) <= Gone(s) + Unsubscribed([e])
  {
    hide RoundInv, Inv, Find, Swap, RemoveAt;
    assert [e][1..] == [];
    match e {
      case Subscribe(_) =>
      case Unsubscribe(ch) => UnsubscribeInRound(s, ch);
      case TakeLock(_) => SendingInRound(s);
      case DeleteLocked => SendingInRound(s);
      case BeginSend => SendingInRound(s);
      case MergeInbox =>
      case Try(sent) =>
      case SelectSend(i) =>
      case SelectRemove(ch) => RemoveInRound(s, ch);
      case EndSend =>
    }
  }

  lemma SendingInRound(s: State)
    requires Inv(s) && s.round.Some?
    ensures s.lock.Sending?
  {
    hide RoundInv;
  }

  lemma UnsubscribeInRound(s: State, ch: Chan)
    requires s.round.Some? && Enabled(s, Unsubscribe(ch))
    ensures var t := Next(s, Unsubscribe(ch));
            t.round == s.round && Gone(t) <= Gone(s) + multiset{ch}
  {
    hide Find, RemoveAt;
  }

  lemma RemoveInRound(s: State, ch: Chan)
    requires Inv(s) && Enabled(s, SelectRemove(ch))
    ensures var t := Next(s, SelectRemove(ch));
            t.round.Some? && t.round.value.start == s.round.value.start && Gone(t) == Gone(s)
  {
    FindNeverFails(s, ch);
    hide RoundInv, Inv, Find, RemoveAt;
    assert (s.leaving - multiset{ch}) + multiset{ch} == s.leaving;
  }

  lemma {:induction false} RoundGoesOn(s: State, events: seq<Event>, t: State)
    requires Inv(s) && s.round.Some? && Run(s, events, t) && EndSend !in events
    ensures t.round.Some? && t.round.value.start == s.round.value.start
    ensures Gone(t) <= Gone(s) + Unsubscribed(events)
    decreases events
  {
    hide Inv, Next, Enabled, Gone;
    if events != [] {
      assert events[0] in events;
      NextKeepsInv(s, events[0]);
      RoundStep(s, events[0]);
      RoundGoesOn(Next(s, events[0]), events[1..], t);
      HeadFirst(events);
    }
  }

  // When a Send is over, every subscription that was in force when it took over the inbox has
  // been served, but for those cancelled meanwhile; nobody else has been served.
  lemma SubscribersAreServed(before: seq<Event>, s: State, events: seq<Event>, t: State)
    requires Run(INIT, before, s) && Enabled(s, MergeInbox)
    requires Run(Next(s, MergeInbox), events, t) && EndSend !in events && Enabled(t, EndSend)
    ensures s.holders <= t.round.value.delivered + Unsubscribed(events)
    ensures t.round.value.delivered <= s.holders + s.leaving
    ensures forall ch :: ch !in s.leaving && Unsubscribe(ch) !in events ==> t.round.value.delivered[ch] == s.holders[ch]
  {
    hide Run, RoundInv, Next;
    RunKeepsInv(INIT, before, s);
    MergeTakesEveryone(s);
    MergeKeepsInv(s);
    RunKeepsInv(Next(s, MergeInbox), events, t);
    RoundGoesOn(Next(s, MergeInbox), events, t);
    assert t.round.value.start == t.round.value.delivered + t.round.value.dropped by { AllServed(t); }
    var r := t.round.value;
    forall ch ensures s.holders[ch] <= (r.delivered + Unsubscribed(events))[ch] {
      assert (r.delivered + r.dropped)[ch] == (s.holders + s.leaving)[ch];
      assert Gone(t)[ch] <= (s.leaving + Unsubscribed(events))[ch];
    }
    forall ch | ch !in s.leaving && Unsubscribe(ch) !in events ensures r.delivered[ch] == s.holders[ch] {
      NotUnsubscribed(events, ch);
      assert (r.delivered + r.dropped)[ch] == (s.holders + s.leaving)[ch];
    }
  }

  lemma AllServed(t: State)
    requires Inv(t) && Enabled(t, EndSend)
    ensures t.round.value.start == t.round.value.delivered + t.round.value.dropped
  {
    assert t.subs[..0] == [];
  }

  // ----- Nothing gets stuck.

  // A cancellation that gets the lock is through after one more step.
  lemma RemovalCompletes(s: State, ch: Chan)
    requires Inv(s) && Enabled(s, TakeLock(ch))
    ensures Enabled(Next(s, TakeLock(ch)), DeleteLocked)
    ensures var t := Next(Next(s, TakeLock(ch)), DeleteLocked);
            && t.lock.Free? && t.leaving == s.leaving - multiset{ch} && t.holders == s.holders && t.inbox == s.inbox
            && multiset(t.subs) == multiset(s.subs) - multiset{ch}
  {
    hide RoundInv, RemoveAt;
    FindNeverFails(s, ch);
    assert s.subs[Find(s.subs, ch)] == ch;
  }

  // Every step of a Send brings it closer to its end: fewer cases to serve or to look at.
  lemma RoundAdvances(s: State, e: Event)
    requires Inv(s) && s.round.Some? && Enabled(s, e) && (e.Try? || e.SelectSend? || e.SelectRemove?)
    ensures var t := Next(s, e);
            && t.round.Some? && t.round.value.next <= t.round.value.active
            && (t.round.value.active + |t.subs| < s.round.value.active + |s.subs| ||
                (t.subs == s.subs && t.round.value.active == s.round.value.active && t.round.value.next > s.round.value.next))
  {
    hide Find;
    if e.SelectRemove? {
      FindNeverFails(s, e.ch);
    }
  }

  // A Send whose receivers are ready runs to its end and hands back the lock.
  lemma {:induction false} RoundCanFinish(s: State) returns (events: seq<Event>, t: State)
    requires Inv(s) && s.round.Some?
    ensures Run(s, events, t) && t.lock.Free? && t.round.None?
    ensures t.holders == s.holders && t.leaving == s.leaving && t.inbox == s.inbox && multiset(t.subs) == multiset(s.subs)
    decreases s.round.value.active
  {
    hide Swap, RoundInv;
    var r := s.round.value;
    RoundBounds(s.subs, r);
    if r.active == 0 {
      events, t := [EndSend], Next(s, EndSend);
      assert Run(t, events[1..], t);
    } else {
      var e := if r.next < r.active then Try(true) else SelectSend(0);
      var i := if r.next < r.active then r.next else 0;
      NextKeepsInv(s, e);
      SwapOut(s.subs, i, r.active);
      var s' := Next(s, e);
      var rest;
      rest, t := RoundCanFinish(s');
      events := [e] + rest;
      assert events[1..] == rest;
    }
  }

  lemma SendCanFinish(s: State) returns (events: seq<Event>, t: State)
    requires Inv(s) && s.lock.Free?
    ensures Run(s, events, t) && t.lock.Free? && t.round.None? && t.inbox == []
    ensures t.holders == s.holders && t.leaving == s.leaving && multiset(t.subs) == s.holders + s.leaving
  {
    hide RoundInv;
    var s1 := Next(s, BeginSend);
    NextKeepsInv(s, BeginSend);
    var s2 := Next(s1, MergeInbox);
    MergeTakesEveryone(s1);
    NextKeepsInv(s1, MergeInbox);
    var rest;
    rest, t := RoundCanFinish(s2);
    events := [BeginSend, MergeInbox] + rest;
    assert events[1..][1..] == rest;
  }
}
