// The one-to-many event feed of event/feed.go: subscribers come and go while a Send walks
// over one shared array of select cases.
module Feed {
  import opened Base

  type Chan = nat

  // ----- The three operations on a list of cases, and their in-place versions.

  function Find(s: seq<Chan>, ch: Chan): (i: int)
    ensures -1 <= i < |s|
    ensures i == -1 <==> ch !in s
    ensures i >= 0 ==> s[i] == ch && ch !in s[..i]
  {
    if s == [] then -1
    else if s[0] == ch then 0
    else
      var i := Find(s[1..], ch);
      assert i >= 0 ==> s[..i + 1] == [s[0]] + s[1..][..i];
      if i == -1 then -1 else i + 1
  }

  function Swap(s: seq<Chan>, i: nat, j: nat): (r: seq<Chan>)
    requires i < |s| && j < |s|
    ensures |r| == |s| && r[i] == s[j] && r[j] == s[i]
    ensures forall k :: 0 <= k < |s| && k != i && k != j ==> r[k] == s[k]
  {
    s[i := s[j]][j := s[i]]
  }

  // find: the first case of the list that holds the channel, or -1.
  method FindCase(buf: array<Chan>, len: nat, ch: Chan) returns (index: int)
    requires len <= buf.Length
    ensures index == Find(buf[..len], ch)
  {
    for i := 0 to len
      invariant ch !in buf[..i]
    {
      if buf[i] == ch {
        FindFirst(buf[..len], ch, i);
        return i;
      }
    }
    index := -1;
  }

  lemma {:induction false} FindFirst(s: seq<Chan>, ch: Chan, i: nat)
    requires i < |s| && s[i] == ch && ch !in s[..i]
    ensures Find(s, ch) == i
  {
    var k := Find(s, ch);
    assert forall j :: 0 <= j < i ==> s[..i][j] == s[j];
    assert forall j :: 0 <= j < k ==> s[..k][j] == s[j];
  }

  // delete: closes the gap by moving the rest of the list one place down, in place.
  method DeleteCase(buf: array<Chan>, len: nat, index: nat)
    requires index < len <= buf.Length
    modifies buf
    ensures buf[..len - 1] == RemoveAt(old(buf[..len]), index)
    ensures forall k :: 0 <= k < index || len <= k < buf.Length ==> buf[k] == old(buf[k])
  {
    hide RemoveAt;
    for i := index to len - 1
      invariant forall k :: 0 <= k < index ==> buf[k] == old(buf[k])
      invariant forall k :: index <= k < i ==> buf[k] == old(buf[k + 1])
      invariant forall k :: i <= k < buf.Length ==> buf[k] == old(buf[k])
    {
      buf[i] := buf[i + 1];
    }
    Shifted(old(buf[..len]), index, buf[..len - 1]);
  }

  lemma Shifted(s: seq<Chan>, i: nat, t: seq<Chan>)
    requires i < |s| == |t| + 1
    requires t[..i] == s[..i] && t[i..] == s[i + 1..]
    ensures t == RemoveAt(s, i)
  {
    assert t == t[..i] + t[i..];
  }

  // deactivate: swaps the case to the end of the active prefix, which then shrinks by one.
  method DeactivateCase(buf: array<Chan>, len: nat, active: nat, index: nat) returns (active': nat)
    requires index < active <= len <= buf.Length
    modifies buf
    ensures active' == active - 1
    ensures buf[..len] == Swap(old(buf[..len]), index, active - 1)
  {
    buf[index], buf[active - 1] := buf[active - 1], buf[index];
    active' := active - 1;
  }

  // ----- The protocol.

  datatype Lock = Free | Sending | Removing(ch: Chan)

  // One Send in progress. `active` is the length of the prefix still to be served, `next`
  // the position of the non-blocking pass. The multisets record what happened to the cases
  // present at the start: delivered, removed before delivery, removed after delivery.
  datatype Round = Round(active: nat, next: nat, nsent: nat, start: multiset<Chan>,
                         delivered: multiset<Chan>, dropped: multiset<Chan>, retracted: multiset<Chan>)

  // `subs` is sendCases without its first entry, the removal channel. `holders` are the
  // subscriptions nobody cancels yet, `leaving` the cancellations waiting in remove.
  // `panicked` is set by an index out of range.
  datatype State = State(inbox: seq<Chan>, subs: seq<Chan>, lock: Lock, round: Option<Round>,
                         holders: multiset<Chan>, leaving: multiset<Chan>, panicked: bool)

  datatype Event =
    | Subscribe(ch: Chan)
    | Unsubscribe(ch: Chan)      // remove: look in the inbox
    | TakeLock(ch: Chan)         // remove: no Send in progress
    | DeleteLocked               // remove: delete and hand back the lock
    | BeginSend                  // Send: take the lock
    | MergeInbox                 // Send: move the inbox into the cases
    | Try(sent: bool)            // Send: TrySend on the next active case
    | SelectSend(index: nat)     // Send: a receiver became ready
    | SelectRemove(ch: Chan)     // Send: a cancellation arrived
    | EndSend                    // Send: everybody served

  const INIT := State([], [], Free, None, multiset{}, multiset{}, false)

  ghost predicate Enabled(s: State, e: Event) {
    match e
    case Subscribe(_) => true
    case Unsubscribe(ch) => ch in s.holders
    case TakeLock(ch) => ch in s.leaving && s.lock.Free?
    case DeleteLocked => s.lock.Removing?
    case BeginSend => s.lock.Free?
    case MergeInbox => s.lock.Sending? && s.round.None?
    case Try(_) => s.round.Some? && s.round.value.next < s.round.value.active
    case SelectSend(i) => s.round.Some? && s.round.value.next == s.round.value.active && i < s.round.value.active
    case SelectRemove(ch) =>
      s.round.Some? && s.round.value.next == s.round.value.active && s.round.value.active > 0 && ch in s.leaving
    case EndSend => s.round.Some? && s.round.value.active == 0
  }

  ghost function Deliver(s: State, i: nat, next: nat): State
    requires s.round.Some?
  {
    var r := s.round.value;
    if !(i < r.active <= |s.subs|) then s.(panicked := true)
    else
      s.(subs := Swap(s.subs, i, r.active - 1),
         round := Some(r.(active := r.active - 1, next := next, nsent := r.nsent + 1,
                          delivered := r.delivered + multiset{s.subs[i]})))
  }

  ghost function Next(s: State, e: Event): State
    requires Enabled(s, e)
  {
    match e
    case Subscribe(ch) => s.(inbox := s.inbox + [ch], holders := s.holders + multiset{ch})
    case Unsubscribe(ch) =>
      var i := Find(s.inbox, ch);
      var t := s.(holders := s.holders - multiset{ch});
      if i >= 0 then t.(inbox := RemoveAt(s.inbox, i)) else t.(leaving := s.leaving + multiset{ch})
    case TakeLock(ch) => s.(leaving := s.leaving - multiset{ch}, lock := Removing(ch))
    case DeleteLocked =>
      var i := Find(s.subs, s.lock.ch);
      if i < 0 then s.(panicked := true) else s.(subs := RemoveAt(s.subs, i), lock := Free)
    case BeginSend => s.(lock := Sending)
    case MergeInbox =>
      var subs := s.subs + s.inbox;
      s.(inbox := [], subs := subs,
         round := Some(Round(|subs|, 0, 0, multiset(subs), multiset{}, multiset{}, multiset{})))
    case Try(sent) =>
      var r := s.round.value;
      if sent then Deliver(s, r.next, r.next) else s.(round := Some(r.(next := r.next + 1)))
    case SelectSend(i) => Deliver(s, i, 0)
    case SelectRemove(ch) =>
      var r, i := s.round.value, Find(s.subs, ch);
      if i < 0 then s.(panicked := true)
      else
        s.(subs := RemoveAt(s.subs, i), leaving := s.leaving - multiset{ch},
           round := Some(if i < r.active then r.(active := r.active - 1, next := 0, dropped := r.dropped + multiset{ch})
                         else r.(next := 0, retracted := r.retracted + multiset{ch})))
    case EndSend => s.(lock := Free, round := None)
  }

  // The cancellation that holds the lock, if any.
  ghost function Locked(s: State): multiset<Chan> {
    if s.lock.Removing? then multiset{s.lock.ch} else multiset{}
  }

  ghost predicate RoundInv(subs: seq<Chan>, r: Round) {
    && r.active <= |subs| && r.next <= r.active
    && multiset(subs[..r.active]) + r.delivered + r.dropped == r.start
    && multiset(subs[r.active..]) + r.retracted == r.delivered
    && r.nsent == |r.delivered|
  }

  ghost predicate Inv(s: State) {
    && !s.panicked
    // Every live subscription has its case in the inbox or among the send cases.
    && multiset(s.inbox) + multiset(s.subs) == s.holders + s.leaving + Locked(s)
    // A cancellation that did not find its case in the inbox finds it among the send cases.
    && s.leaving + Locked(s) <= multiset(s.subs)
    && (s.round.Some? ==> s.lock.Sending?)
    && (s.round.Some? ==> RoundInv(s.subs, s.round.value))
  }

  // find never yields -1 before delete.
  lemma FindNeverFails(s: State, ch: Chan)
    requires Inv(s) && (ch in s.leaving || s.lock == Removing(ch))
    ensures 0 <= Find(s.subs, ch) < |s.subs|
  {
    assert ch in s.leaving + Locked(s);
    assert ch in multiset(s.subs);
  }

  lemma SplitMultiset(s: seq<Chan>, i: nat)
    requires i <= |s|
    ensures multiset(s) == multiset(s[..i]) + multiset(s[i..])
  {
    assert s == s[..i] + s[i..];
  }

  lemma Exchange(m: multiset<Chan>, x: Chan, y: Chan)
    requires x in m
    ensures m - multiset{x} + multiset{y} == m + multiset{y} - multiset{x}
  {
  }

  lemma SwapPrefix(s: seq<Chan>, i: nat, active: nat)
    requires i < active <= |s|
    ensures multiset(Swap(s, i, active - 1)[..active - 1]) == multiset(s[..active]) - multiset{s[i]}
  {
    var t, front := Swap(s, i, active - 1), s[..active - 1];
    assert s[..active] == front + [s[active - 1]];
    if i == active - 1 {
      assert t[..active - 1] == front;
    } else {
      assert t[..active - 1] == front[i := s[active - 1]];
      assert front[i] in multiset(front);
      Exchange(multiset(front), s[i], s[active - 1]);
    }
  }

  // Swapping to the end of the prefix moves exactly that case out of the prefix.
  lemma SwapOut(s: seq<Chan>, i: nat, active: nat)
    requires i < active <= |s|
    ensures var t := Swap(s, i, active - 1);
            && multiset(t[..active - 1]) == multiset(s[..active]) - multiset{s[i]}
            && multiset(t[active - 1..]) == multiset(s[active..]) + multiset{s[i]}
            && multiset(t) == multiset(s)
  {
    var t := Swap(s, i, active - 1);
    SwapPrefix(s, i, active);
    assert t[active - 1..] == [s[i]] + s[active..];
    hide Swap;
    SplitMultiset(t, active - 1);
    SplitMultiset(s, active);
    assert s[..active][i] in multiset(s[..active]);
    Restore(multiset(s[..active]), multiset(s[active..]), s[i]);
  }

  lemma Restore(m: multiset<Chan>, n: multiset<Chan>, x: Chan)
    requires x in m
    ensures (m - multiset{x}) + (n + multiset{x}) == m + n
  {
  }

  // Removing a case shortens the prefix or the rest, whichever holds it.
  lemma RemoveSplit(s: seq<Chan>, i: nat, active: nat)
    requires i < |s| && active <= |s|
    ensures var t := RemoveAt(s, i);
            if i < active
            then multiset(t[..active - 1]) == multiset(s[..active]) - multiset{s[i]} && t[active - 1..] == s[active..]
            else t[..active] == s[..active] && multiset(t[active..]) == multiset(s[active..]) - multiset{s[i]}
  {
    var t := RemoveAt(s, i);
    if i < active {
      assert t[..active - 1] == RemoveAt(s[..active], i);
    } else {
      assert t[active..] == RemoveAt(s[active..], i - active);
    }
  }

  // What a delivery does to the ledger of a round, with the cases already split.
  lemma DeliverLedger(front: multiset<Chan>, back: multiset<Chan>, r: Round, x: Chan)
    requires x in front && front + r.delivered + r.dropped == r.start && back + r.retracted == r.delivered
    ensures (front - multiset{x}) + (r.delivered + multiset{x}) + r.dropped == r.start
    ensures (back + multiset{x}) + r.retracted == r.delivered + multiset{x}
    ensures |r.delivered + multiset{x}| == |r.delivered| + 1
  {
  }

  lemma DeliverKeepsRound(subs: seq<Chan>, r: Round, i: nat, next: nat)
    requires RoundInv(subs, r) && i < r.active && next < r.active
    ensures RoundInv(Swap(subs, i, r.active - 1),
                     r.(active := r.active - 1, next := next, nsent := r.nsent + 1,
                        delivered := r.delivered + multiset{subs[i]}))
  {
    hide Swap;
    SwapOut(subs, i, r.active);
    assert subs[..r.active][i] in multiset(subs[..r.active]);
    DeliverLedger(multiset(subs[..r.active]), multiset(subs[r.active..]), r, subs[i]);
  }

  lemma RoundBounds(subs: seq<Chan>, r: Round)
    requires RoundInv(subs, r)
    ensures r.next <= r.active <= |subs|
  {
  }

  lemma DeliverKeepsInv(s: State, i: nat, next: nat)
    requires Inv(s) && s.round.Some? && i < s.round.value.active && next < s.round.value.active
    ensures s.round.value.active <= |s.subs| && Inv(Deliver(s, i, next))
  {
    hide RoundInv, Swap;
    RoundBounds(s.subs, s.round.value);
    DeliverKeepsRound(s.subs, s.round.value, i, next);
    SwapOut(s.subs, i, s.round.value.active);
  }

  lemma DropLedger(front: multiset<Chan>, r: Round, x: Chan)
    requires x in front && front + r.delivered + r.dropped == r.start
    ensures (front - multiset{x}) + r.delivered + (r.dropped + multiset{x}) == r.start
  {
  }

  lemma RetractLedger(back: multiset<Chan>, r: Round, x: Chan)
    requires x in back && back + r.retracted == r.delivered
    ensures (back - multiset{x}) + (r.retracted + multiset{x}) == r.delivered
  {
  }

  lemma RemoveKeepsRound(subs: seq<Chan>, r: Round, i: nat)
    requires RoundInv(subs, r) && i < |subs|
    ensures var r' := if i < r.active then r.(active := r.active - 1, next := 0, dropped := r.dropped + multiset{subs[i]})
                      else r.(next := 0, retracted := r.retracted + multiset{subs[i]});
            RoundInv(RemoveAt(subs, i), r')
  {
    hide RemoveAt;
    RemoveSplit(subs, i, r.active);
    if i < r.active {
      assert subs[..r.active][i] in multiset(subs[..r.active]);
      DropLedger(multiset(subs[..r.active]), r, subs[i]);
    } else {
      assert subs[r.active..][i - r.active] in multiset(subs[r.active..]);
      RetractLedger(multiset(subs[r.active..]), r, subs[i]);
    }
  }

  // The balance of cases and cancellations when one of each goes.
  lemma CancelBalance(inbox: multiset<Chan>, subs: multiset<Chan>, holders: multiset<Chan>, going: multiset<Chan>, ch: Chan)
    requires ch in going && inbox + subs == holders + going && going <= subs
    ensures inbox + (subs - multiset{ch}) == holders + (going - multiset{ch})
    ensures going - multiset{ch} <= subs - multiset{ch}
  {
    forall x ensures (inbox + (subs - multiset{ch}))[x] == (holders + (going - multiset{ch}))[x] {
      assert (inbox + subs)[x] == (holders + going)[x];
    }
  }

  lemma RemoveKeepsInv(s: State, ch: Chan)
    requires Inv(s) && Enabled(s, SelectRemove(ch))
    ensures Inv(Next(s, SelectRemove(ch)))
  {
    hide RoundInv, RemoveAt, Find;
    FindNeverFails(s, ch);
    var i := Find(s.subs, ch);
    RemoveKeepsRound(s.subs, s.round.value, i);
    assert s.leaving + multiset{} == s.leaving;
    CancelBalance(multiset(s.inbox), multiset(s.subs), s.holders, s.leaving, ch);
  }

  lemma DeleteKeepsInv(s: State)
    requires Inv(s) && Enabled(s, DeleteLocked)
    ensures Inv(Next(s, DeleteLocked))
  {
    FindNeverFails(s, s.lock.ch);
    CancelBalance(multiset(s.inbox), multiset(s.subs), s.holders, s.leaving + Locked(s), s.lock.ch);
    assert s.leaving + Locked(s) - multiset{s.lock.ch} == s.leaving;
  }

  lemma UnsubscribeKeepsInv(s: State, ch: Chan)
    requires Inv(s) && Enabled(s, Unsubscribe(ch))
    ensures Inv(Next(s, Unsubscribe(ch)))
  {
    hide RoundInv, RemoveAt, Find, Inv;
    if ch in s.inbox {
      UnsubscribeFromInbox(s, ch);
    } else {
      UnsubscribeWaits(s, ch);
    }
  }

  lemma UnsubscribeFromInbox(s: State, ch: Chan)
    requires Inv(s) && Enabled(s, Unsubscribe(ch)) && ch in s.inbox
    ensures Inv(Next(s, Unsubscribe(ch)))
  {
    hide RoundInv, RemoveAt, Find;
    assert ch in multiset(s.inbox);
    LeaveInbox(multiset(s.inbox), multiset(s.subs), s.holders, s.leaving + Locked(s), ch);
  }

  lemma UnsubscribeWaits(s: State, ch: Chan)
    requires Inv(s) && Enabled(s, Unsubscribe(ch)) && ch !in s.inbox
    ensures Inv(Next(s, Unsubscribe(ch)))
  {
    hide RoundInv, RemoveAt, Find;
    var going := s.leaving + Locked(s);
    assert ch !in multiset(s.inbox);
    StartLeaving(multiset(s.inbox), multiset(s.subs), s.holders, going, ch);
    assert s.leaving + multiset{ch} + Locked(s) == going + multiset{ch};
  }

  lemma LeaveInbox(inbox: multiset<Chan>, subs: multiset<Chan>, holders: multiset<Chan>, going: multiset<Chan>, ch: Chan)
    requires ch in inbox && ch in holders && inbox + subs == holders + going
    ensures (inbox - multiset{ch}) + subs == (holders - multiset{ch}) + going
  {
    forall x ensures ((inbox - multiset{ch}) + subs)[x] == ((holders - multiset{ch}) + going)[x] {
      assert (inbox + subs)[x] == (holders + going)[x];
    }
  }

  lemma StartLeaving(inbox: multiset<Chan>, subs: multiset<Chan>, holders: multiset<Chan>, going: multiset<Chan>, ch: Chan)
    requires ch !in inbox && ch in holders && inbox + subs == holders + going && going <= subs
    ensures inbox + subs == (holders - multiset{ch}) + (going + multiset{ch})
    ensures going + multiset{ch} <= subs
  {
    assert subs[ch] == holders[ch] + going[ch] by {
      assert (inbox + subs)[ch] == (holders + going)[ch];
    }
  }

  lemma MergeKeepsInv(s: State)
    requires Inv(s) && Enabled(s, MergeInbox)
    ensures Inv(Next(s, MergeInbox))
  {
    var subs := s.subs + s.inbox;
    assert subs[..|subs|] == subs && subs[|subs|..] == [];
  }

  // Every step of every party keeps the invariant.
  lemma NextKeepsInv(s: State, e: Event)
    requires Inv(s) && Enabled(s, e)
    ensures Inv(Next(s, e))
  {
    match e {
      case Subscribe(ch) => SubscribeKeepsInv(s, ch);
      case Unsubscribe(ch) => UnsubscribeKeepsInv(s, ch);
      case TakeLock(ch) => TakeLockKeepsInv(s, ch);
      case DeleteLocked => DeleteKeepsInv(s);
      case BeginSend => hide RoundInv;
      case MergeInbox => MergeKeepsInv(s);
      case Try(sent) =>
        if sent {
          DeliverKeepsInv(s, s.round.value.next, s.round.value.next);
        }
      case SelectSend(i) => DeliverKeepsInv(s, i, 0);
      case SelectRemove(ch) => RemoveKeepsInv(s, ch);
      case EndSend => hide RoundInv;
    }
  }

  lemma SubscribeKeepsInv(s: State, ch: Chan)
    requires Inv(s)
    ensures Inv(Next(s, Subscribe(ch)))
  {
    hide RoundInv;
    var t := Next(s, Subscribe(ch));
    forall x ensures (multiset(t.inbox) + multiset(t.subs))[x] == (t.holders + t.leaving + Locked(t))[x] {
      assert (multiset(s.inbox) + multiset(s.subs))[x] == (s.holders + s.leaving + Locked(s))[x];
    }
  }

  lemma TakeLockKeepsInv(s: State, ch: Chan)
    requires Inv(s) && Enabled(s, TakeLock(ch))
    ensures Inv(Next(s, TakeLock(ch)))
  {
    hide RoundInv;
    assert s.leaving - multiset{ch} + multiset{ch} == s.leaving;
  }

  ghost predicate Run(s: State, events: seq<Event>, t: State)
    decreases events
  {
    if events == [] then s == t
    else Enabled(s, events[0]) && Run(Next(s, events[0]), events[1..], t)
  }

  lemma {:induction false} RunKeepsInv(s: State, events: seq<Event>, t: State)
    requires Inv(s) && Run(s, events, t)
    ensures Inv(t)
    decreases events
  {
    hide Inv, Next, Enabled;
    if events != [] {
      NextKeepsInv(s, events[0]);
      RunKeepsInv(Next(s, events[0]), events[1..], t);
    }
  }

  // In every interleaving of Subscribe, Unsubscribe and Send that starts from an unused
  // feed: no index goes out of range, and the live subscriptions are the cases.
  lemma FeedIsConsistent(events: seq<Event>, t: State)
    requires Run(INIT, events, t)
    ensures !t.panicked
    ensures multiset(t.inbox) + multiset(t.subs) == t.holders + t.leaving + Locked(t)
    ensures t.lock.Removing? ==> Find(t.subs, t.lock.ch) >= 0
    ensures forall ch :: ch in t.leaving ==> Find(t.subs, ch) >= 0
  {
    hide Run;
    RunKeepsInv(INIT, events, t);
    if t.lock.Removing? {
      FindNeverFails(t, t.lock.ch);
    }
    forall ch | ch in t.leaving ensures Find(t.subs, ch) >= 0 {
      FindNeverFails(t, ch);
    }
  }

  // At any moment of a Send nobody has been served twice; at its end everybody present at
  // the start has been served exactly once or was removed before, nsent is the number of
  // deliveries, and the cases are those of the start without the removed ones.
  lemma SendIsExact(events: seq<Event>, t: State)
    requires Run(INIT, events, t) && t.round.Some?
    ensures var r := t.round.value;
            && r.delivered + r.dropped <= r.start && r.nsent == |r.delivered|
            && multiset(t.subs) + r.dropped + r.retracted == r.start && r.retracted <= r.delivered
            && (Enabled(t, EndSend) ==> r.delivered + r.dropped == r.start)
  {
    hide Run;
    RunKeepsInv(INIT, events, t);
    var r := t.round.value;
    SplitMultiset(t.subs, r.active);
    var front, back := multiset(t.subs[..r.active]), multiset(t.subs[r.active..]);
    assert front + r.delivered + r.dropped == r.start && back + r.retracted == r.delivered;
    LedgerTotal(front, back, r);
    if r.active == 0 {
      assert t.subs[..0] == [];
    }
  }

  lemma LedgerTotal(front: multiset<Chan>, back: multiset<Chan>, r: Round)
    requires front + r.delivered + r.dropped == r.start && back + r.retracted == r.delivered
    ensures (front + back) + r.dropped + r.retracted == r.start
    ensures r.delivered + r.dropped <= r.start && r.retracted <= r.delivered
  {
    forall x ensures ((front + back) + r.dropped + r.retracted)[x] == r.start[x] {
      assert (back + r.retracted)[x] == r.delivered[x];
    }
  }

  // ----- Send on the array.

  // Send from the moment it holds the lock: `cases` is the prefix of length `active` of the
  // same array as `sendCases`. Which channels are ready and which subscriptions are
  // cancelled meanwhile is open; every in-place swap and deletion keeps the two slices and
  // the accounts of the round in step.
  method Send(buf: array<Chan>, len: nat) returns (nsent: nat, len': nat, ghost r: Round)
    requires len <= buf.Length
    modifies buf
    ensures len' <= len && RoundInv(buf[..len'], r) && r.active == 0 && r.nsent == nsent
    ensures r.start == multiset(old(buf[..len])) == r.delivered + r.dropped && nsent == |r.delivered|
    ensures multiset(buf[..len']) + r.dropped + r.retracted == multiset(old(buf[..len])) && r.retracted <= r.delivered
  {
    hide RoundInv, RemoveAt, Swap;
    var active := len;
    nsent, len' := 0, len;
    r := Round(len, 0, 0, multiset(buf[..len]), multiset{}, multiset{}, multiset{});
    RoundBegins(buf[..len]);
    while true
      invariant active <= len' <= len && r.active == active && r.nsent == nsent
      invariant RoundInv(buf[..len'], r) && r.start == multiset(old(buf[..len]))
      decreases len' + active
    {
      active, nsent, r := TrySendAll(buf, len', active, nsent, r);
      if active == 0 {
        break;
      }
      if * {
        var k: nat :| k < len';
        active, r := Cancelled(buf, len', active, r, k);
        len' := len' - 1;
      } else {
        var chosen: nat :| chosen < active;
        active, nsent, r := Delivered(buf, len', active, nsent, r, chosen);
      }
    }
    RoundEnds(buf[..len'], r);
  }

  // The subscription at k is cancelled: its case, or an equal one before it, is cut out, and
  // the active prefix shrinks if the case was in it.
  method Cancelled(buf: array<Chan>, len: nat, active: nat, ghost r: Round, k: nat) returns (active': nat, ghost r': Round)
    requires active <= len <= buf.Length && k < len && RoundInv(buf[..len], r) && r.active == active
    modifies buf
    ensures active' <= active && active' <= len - 1 && RoundInv(buf[..len - 1], r')
    ensures r'.active == active' && r'.nsent == r.nsent && r'.start == r.start
  {
    hide RoundInv, RemoveAt, Find;
    var index := FindCase(buf, len, buf[k]);
    assert buf[..len][k] == buf[k];
    RemoveKeepsRound(buf[..len], r, index);
    r' := if index < active then r.(active := active - 1, next := 0, dropped := r.dropped + multiset{buf[..len][index]})
          else r.(next := 0, retracted := r.retracted + multiset{buf[..len][index]});
    DeleteCase(buf, len, index);
    active' := if index < active then active - 1 else active;
  }

  // One delivery: the served case goes behind the active prefix.
  method Delivered(buf: array<Chan>, len: nat, active: nat, nsent: nat, ghost r: Round, i: nat)
    returns (active': nat, nsent': nat, ghost r': Round)
    requires i < active <= len <= buf.Length && RoundInv(buf[..len], r) && r.active == active && r.nsent == nsent
    modifies buf
    ensures RoundInv(buf[..len], r') && r'.active == active' == active - 1 && r'.nsent == nsent' == nsent + 1 && r'.start == r.start
  {
    hide RoundInv, Swap;
    DeliverKeepsRound(buf[..len], r, i, 0);
    r' := r.(active := active - 1, next := 0, nsent := nsent + 1, delivered := r.delivered + multiset{buf[..len][i]});
    active' := DeactivateCase(buf, len, active, i);
    nsent' := nsent + 1;
  }

  // The pass that does not block: every ready channel is served.
  method TrySendAll(buf: array<Chan>, len: nat, active: nat, nsent: nat, ghost r: Round)
    returns (active': nat, nsent': nat, ghost r': Round)
    requires active <= len <= buf.Length && RoundInv(buf[..len], r) && r.active == active && r.nsent == nsent
    modifies buf
    ensures active' <= active && RoundInv(buf[..len], r') && r'.active == active' && r'.nsent == nsent' && r'.start == r.start
  {
    hide RoundInv;
    active', nsent', r' := active, nsent, r;
    var i := 0;
    while i < active'
      invariant active' <= active && RoundInv(buf[..len], r') && r'.active == active' && r'.nsent == nsent' && r'.start == r.start
      decreases active' - i
    {
      if * {
        active', nsent', r' := Delivered(buf, len, active', nsent', r', i);
      } else {
        i := i + 1;
      }
    }
  }

  lemma RoundBegins(subs: seq<Chan>)
    ensures RoundInv(subs, Round(|subs|, 0, 0, multiset(subs), multiset{}, multiset{}, multiset{}))
  {
    assert subs[..|subs|] == subs;
  }

  lemma RoundEnds(subs: seq<Chan>, r: Round)
    requires RoundInv(subs, r) && r.active == 0
    ensures r.start == r.delivered + r.dropped && r.nsent == |r.delivered|
    ensures multiset(subs) + r.dropped + r.retracted == r.start && r.retracted <= r.delivered
  {
    assert subs[..0] == [] && subs[0..] == subs;
    LedgerTotal(multiset{}, multiset(subs), r);
  }
}
