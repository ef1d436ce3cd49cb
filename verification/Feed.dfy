/** A feed delivers each value once to every subscribed channel. While a value is being sent, one
    array holds the channels still to be served, followed by those already served. */
module Feeds {
  import opened Sequences

  type Channel = int

  /** The channel that interrupts a send to remove a subscription; always the first case. */
  const REMOVE_SUB: Channel := 0

  // ---- lists of cases ----------------------------------------------------------------------------

  ghost predicate Proper(s: seq<Channel>) { s != [] && s[0] == REMOVE_SUB && REMOVE_SUB !in s[1..] }

  lemma Pull(a: seq<Channel>, x: Channel, b: seq<Channel>)
    ensures multiset(a + [x] + b) == multiset(a + b) + multiset{x}
  {}

  lemma PullBefore(a: seq<Channel>, x: Channel, b: seq<Channel>, y: Channel)
    ensures multiset(a + [x] + b + [y]) == multiset(a + [y] + b) + multiset{x}
  {
    assert multiset(a + [x] + b) == multiset(a + b) + multiset{x} by { Pull(a, x, b); }
    assert multiset(a + [y] + b) == multiset(a + b) + multiset{y} by { Pull(a, y, b); }
  }

  lemma WithoutPart(s: seq<Channel>, lo: nat, hi: nat, i: nat)
    requires lo <= i < hi <= |s|
    ensures multiset(s[lo..hi]) == multiset(Omit(s, i)[lo..hi - 1]) + multiset{s[i]}
  {
    assert s[lo..hi] == s[lo..i] + [s[i]] + s[i + 1..hi];
    assert Omit(s, i)[lo..hi - 1] == s[lo..i] + s[i + 1..hi];
    Pull(s[lo..i], s[i], s[i + 1..hi]);
  }

  lemma WithoutAll(s: seq<Channel>, i: nat)
    requires i < |s|
    ensures multiset(s) == multiset(Omit(s, i)) + multiset{s[i]}
    ensures forall x :: x in Omit(s, i) ==> x in s
  {
    WithoutPart(s, 0, |s|, i);
    assert s[0..|s|] == s && Omit(s, i)[0..|s| - 1] == Omit(s, i);
  }

  lemma WithoutProper(s: seq<Channel>, i: nat)
    requires Proper(s) && 1 <= i < |s|
    ensures Proper(Omit(s, i)) && multiset(s[1..]) == multiset(Omit(s, i)[1..]) + multiset{s[i]}
  {
    assert s[1..|s|] == s[1..];
    WithoutPart(s, 1, |s|, i);
    var t := Omit(s, i);
    assert t[1..|s| - 1] == t[1..];
    assert forall x :: x in t[1..] ==> x in multiset(t[1..]);
    assert forall x :: x in multiset(s[1..]) ==> x in s[1..];
  }

  lemma AppendProper(s: seq<Channel>, t: seq<Channel>)
    requires Proper(s) && REMOVE_SUB !in t
    ensures Proper(s + t) && multiset((s + t)[1..]) == multiset(s[1..]) + multiset(t)
  {
    assert (s + t)[1..] == s[1..] + t;
  }

  /** Two accounts of an inbox, one after the other. */
  lemma AddUp(was: multiset<Channel>, mid: multiset<Channel>, box: multiset<Channel>, j: multiset<Channel>,
              l: multiset<Channel>, come: multiset<Channel>, gone: multiset<Channel>)
    requires mid + l == was + j && box + gone == mid + come
    ensures box + (l + gone) == was + (j + come)
  {
    forall x ensures (box + (l + gone))[x] == (was + (j + come))[x] {
      assert (mid + l)[x] == (was + j)[x];
      assert (box + gone)[x] == (mid + come)[x];
    }
  }

  function Swapped(s: seq<Channel>, i: nat, j: nat): seq<Channel>
    requires i < |s| && j < |s|
  {
    s[i := s[j]][j := s[i]]
  }

  /** Swapping an element with the last one of a part puts it at the end. */
  lemma SwappedPart(s: seq<Channel>, i: nat, m: nat)
    requires 1 <= i < m <= |s|
    ensures multiset(s[1..m]) == multiset(Swapped(s, i, m - 1)[1..m - 1]) + multiset{s[i]}
  {
    var t := Swapped(s, i, m - 1);
    if i == m - 1 {
      assert s[1..m] == t[1..m - 1] + [s[i]];
    } else {
      var a, b := s[1..i], s[i + 1..m - 1];
      assert s[1..m] == a + [s[i]] + b + [s[m - 1]];
      assert t[1..m - 1] == a + [s[m - 1]] + b;
      PullBefore(a, s[i], b, s[m - 1]);
    }
  }

  /** The first case with a channel. */
  method Find(s: seq<Channel>, channel: Channel) returns (index: int)
    ensures -1 <= index < |s| && (index == -1 <==> channel !in s)
    ensures 0 <= index ==> s[index] == channel && channel !in s[..index]
  {
    index := 0;
    while index < |s|
      invariant 0 <= index <= |s| && channel !in s[..index]
    {
      if s[index] == channel { return; }
      index := index + 1;
    }
    index := -1;
  }

  // ---- one send ----------------------------------------------------------------------------------

  /** In the middle of a send: of the channels subscribed at its start, the first part of the cases is
      still to be served; the others have got the value once or were removed before that; the
      second part of the cases, together with those removed afterwards, has got it. */
  ghost predicate Sending(s: seq<Channel>, active: nat, subscribed: multiset<Channel>, sent: multiset<Channel>,
                          early: multiset<Channel>, late: multiset<Channel>) {
    && Proper(s) && 1 <= active <= |s|
    && multiset(s[1..active]) + sent + early == subscribed
    && multiset(s[active..]) + late == sent
  }

  lemma SendingStart(s: seq<Channel>)
    requires Proper(s)
    ensures Sending(s, |s|, multiset(s[1..]), multiset{}, multiset{}, multiset{})
  {
    assert s[1..|s|] == s[1..] && s[|s|..] == [];
  }

  lemma SendingOne(s: seq<Channel>, active: nat, subscribed: multiset<Channel>, sent: multiset<Channel>,
                   early: multiset<Channel>, late: multiset<Channel>, i: nat)
    requires Sending(s, active, subscribed, sent, early, late) && 1 <= i < active
    ensures Sending(Swapped(s, i, active - 1), active - 1, subscribed, sent + multiset{s[i]}, early, late)
  {
    var t := Swapped(s, i, active - 1);
    SwappedPart(s, i, active);
    assert t[active - 1..] == [s[i]] + s[active..];
    assert forall k :: 1 <= k < |s| ==> s[k] in s[1..];
    assert forall k :: 1 <= k < |t| ==> t[k] in s[1..];
  }

  lemma SendingRemoveEarly(s: seq<Channel>, active: nat, subscribed: multiset<Channel>, sent: multiset<Channel>,
                           early: multiset<Channel>, late: multiset<Channel>, i: nat)
    requires Sending(s, active, subscribed, sent, early, late) && 1 <= i < active
    ensures Sending(Omit(s, i), active - 1, subscribed, sent, early + multiset{s[i]}, late)
  {
    WithoutProper(s, i);
    WithoutPart(s, 1, active, i);
    assert Omit(s, i)[active - 1..] == s[active..];
    hide Omit;
  }

  lemma SendingRemoveLate(s: seq<Channel>, active: nat, subscribed: multiset<Channel>, sent: multiset<Channel>,
                          early: multiset<Channel>, late: multiset<Channel>, i: nat)
    requires Sending(s, active, subscribed, sent, early, late) && active <= i < |s|
    ensures Sending(Omit(s, i), active, subscribed, sent, early, late + multiset{s[i]})
  {
    var t := Omit(s, i);
    WithoutProper(s, i);
    WithoutPart(s, active, |s|, i);
    assert t[1..active] == s[1..active] && s[active..|s|] == s[active..] && t[active..|s| - 1] == t[active..];
  }

  lemma SendingBounds(s: seq<Channel>, active: nat, subscribed: multiset<Channel>, sent: multiset<Channel>,
                      early: multiset<Channel>, late: multiset<Channel>)
    requires Sending(s, active, subscribed, sent, early, late)
    ensures Proper(s) && 1 <= active <= |s|
  {}

  lemma SendingDone(s: seq<Channel>, subscribed: multiset<Channel>, sent: multiset<Channel>,
                    early: multiset<Channel>, late: multiset<Channel>)
    requires Sending(s, 1, subscribed, sent, early, late)
    ensures sent + early == subscribed && multiset(s[1..]) == subscribed - (early + late) && early + late <= subscribed
  {
    assert s[1..1] == [];
  }

  /** What wakes a blocked send: a receiver among those still to be served, or the removal of a
      subscription. The number picks which one. */
  datatype Event = Receive(n: nat) | Remove(n: nat)

  /** What happens to the inbox during a send: a channel subscribes, or one that has not got beyond the inbox
      cancels its subscription. */
  datatype Mail = Join(channel: Channel) | Leave(channel: Channel)

  ghost predicate Proven(mail: seq<Mail>) { forall m :: m in mail ==> m.channel != REMOVE_SUB }

  /** How often a channel is in the inbox after some mail, if it was there n times: one that cancels leaves it if it is
      still there. */
  ghost function Copies(n: nat, c: Channel, mail: seq<Mail>): nat {
    if mail == [] then n else
      var before, m := Copies(n, c, mail[..|mail| - 1]), mail[|mail| - 1];
      if m == Join(c) then before + 1 else if m == Leave(c) && before > 0 then before - 1 else before
  }

  lemma CopiesNext(n: nat, c: Channel, mail: seq<Mail>, m: Mail)
    ensures var before := Copies(n, c, mail);
            Copies(n, c, mail + [m])
            == if m == Join(c) then before + 1 else if m == Leave(c) && before > 0 then before - 1 else before
  {
    assert (mail + [m])[..|mail|] == mail;
  }

  lemma NoCopies(mail: seq<Mail>)
    requires mail == []
    ensures forall n, c :: Copies(n, c, mail) == n
  {}

  /** What one message does to the number of times a channel is in the inbox. */
  lemma PostCounts(was: seq<Channel>, inbox: seq<Channel>, joined: seq<Channel>, left: seq<Channel>, m: Mail,
                   c: Channel)
    requires multiset(inbox) + multiset(left) == multiset(was) + multiset(joined)
    requires joined == if m.Join? then [m.channel] else []
    requires left == if m.Leave? && m.channel in was then [m.channel] else []
    ensures var n := multiset(was)[c];
            multiset(inbox)[c] == if m == Join(c) then n + 1 else if m == Leave(c) && n > 0 then n - 1 else n
  {
    assert c in was <==> multiset(was)[c] > 0;
    assert (multiset(inbox) + multiset(left))[c] == (multiset(was) + multiset(joined))[c];
  }

  lemma AppendCounts(s: seq<Channel>, t: seq<Channel>)
    ensures multiset(s + t) == multiset(s) + multiset(t) && forall c :: c in s + t <==> c in s || c in t
  {}

  /** A channel that was there once, cancelled and has not subscribed again is not there any more. */
  lemma {:induction false} CancelledIsGone(n: nat, mail: seq<Mail>, k: nat, c: Channel)
    requires k < |mail| && mail[k] == Leave(c) && Copies(n, c, mail[..k]) <= 1
    requires forall i :: k < i < |mail| ==> mail[i] != Join(c)
    ensures Copies(n, c, mail) == 0
  {
    var last := |mail| - 1;
    if k == last {
      assert mail[..last] == mail[..k];
    } else {
      assert mail[..last][..k] == mail[..k];
      CancelledIsGone(n, mail[..last], k, c);
    }
  }

  class Feed {
    /** The cases are the first count elements; the rest of the array is spare room. */
    var sendCases: array<Channel>
    var count: nat
    var inbox: seq<Channel>

    ghost predicate Valid()
      reads this, sendCases
    {
      count <= sendCases.Length && Proper(sendCases[..count]) && REMOVE_SUB !in inbox
    }

    /** All current subscriptions. */
    ghost function Subscribed(): multiset<Channel>
      requires Valid()
      reads this, sendCases
    {
      multiset(sendCases[..count][1..]) + multiset(inbox)
    }

    constructor ()
      ensures Valid() && fresh(sendCases) && Subscribed() == multiset{}
    {
      sendCases := new Channel[1][REMOVE_SUB];
      count, inbox := 1, [];
      new;
      assert sendCases[..1] == [REMOVE_SUB];
    }

    method Subscribe(channel: Channel)
      requires Valid() && channel != REMOVE_SUB
      modifies this`inbox
      ensures Valid() && Subscribed() == old(Subscribed()) + multiset{channel}
    {
      inbox := inbox + [channel];
    }

    /** Takes a case out by moving the later ones up. */
    method Delete(index: nat)
      requires index < count <= sendCases.Length
      modifies this`count, sendCases
      ensures count == old(count) - 1
      ensures sendCases[..count] == Omit(old(sendCases[..count]), index)
    {
      var i := index;
      while i < count - 1
        invariant index <= i <= count - 1 && count == old(count) && sendCases == old(sendCases)
        invariant forall k :: 0 <= k < count ==>
                    sendCases[k] == old(sendCases[..count])[if index <= k < i then k + 1 else k]
      {
        sendCases[i] := sendCases[i + 1];
        i := i + 1;
      }
      count := count - 1;
    }

    /** Moves a case behind the active ones. */
    method Deactivate(index: nat, active: nat)
      requires 1 <= index < active <= count <= sendCases.Length
      modifies sendCases
      ensures sendCases[..count] == Swapped(old(sendCases[..count]), index, active - 1)
    {
      sendCases[index], sendCases[active - 1] := sendCases[active - 1], sendCases[index];
    }

    /** Moves the cases to a larger array if there is no room for n more. */
    method Reserve(n: nat)
      requires count <= sendCases.Length
      modifies this`sendCases
      ensures count + n <= sendCases.Length && sendCases[..count] == old(sendCases[..count])
      ensures sendCases == old(sendCases) || fresh(sendCases)
    {
      if count + n > sendCases.Length {
        var larger := new Channel[2 * count + n](_ => REMOVE_SUB);
        forall i | 0 <= i < count { larger[i] := sendCases[i]; }
        sendCases := larger;
      }
    }

    /** Appends the new subscriptions to the cases. */
    method TakeInbox()
      requires Valid()
      modifies this, sendCases
      ensures Valid() && inbox == [] && (sendCases == old(sendCases) || fresh(sendCases))
      ensures sendCases[..count] == old(sendCases[..count] + inbox)
      ensures Subscribed() == old(Subscribed())
    {
      hide Proper;
      ghost var s := sendCases[..count];
      AppendProper(s, inbox);
      Reserve(|inbox|);
      forall i | 0 <= i < |inbox| { sendCases[count + i] := inbox[i]; }
      assert sendCases[..count + |inbox|] == s + inbox;
      count, inbox := count + |inbox|, [];
    }

    /** Cancels a subscription while no value is being sent. */
    method Unsubscribe(channel: Channel)
      requires Valid() && channel in Subscribed()
      modifies this, sendCases
      ensures Valid() && sendCases == old(sendCases) && Subscribed() == old(Subscribed()) - multiset{channel}
    {
      hide Omit;
      ghost var s := sendCases[..count];
      var i := Find(inbox, channel);
      if i != -1 {
        WithoutAll(inbox, i);
        inbox := Omit(inbox, i);
      } else {
        assert channel in s[1..];
        i := Find(sendCases[..count], channel);
        WithoutProper(s, i);
        Delete(i);
      }
    }

    /** Offers the value to every active channel, without waiting; ready says which offers are taken. */
    method TrySend(active0: nat, sent0: seq<Channel>, ready: nat -> bool, tick: nat,
                   ghost subscribed: multiset<Channel>,
                   ghost early: multiset<Channel>, ghost late: multiset<Channel>)
      returns (active: nat, sent: seq<Channel>, next: nat)
      requires count <= sendCases.Length
      requires Sending(sendCases[..count], active0, subscribed, multiset(sent0), early, late)
      modifies sendCases
      ensures Sending(sendCases[..count], active, subscribed, multiset(sent), early, late) && active <= active0
      ensures active0 - active == |sent| - |sent0|
    {
      hide Sending, Swapped;
      active, sent, next := active0, sent0, tick;
      SendingBounds(sendCases[..count], active, subscribed, multiset(sent), early, late);
      var i := 1;
      while i < active
        invariant 1 <= i <= active <= active0 && active0 - active == |sent| - |sent0|
        invariant Sending(sendCases[..count], active, subscribed, multiset(sent), early, late)
        decreases active - i
      {
        SendingBounds(sendCases[..count], active, subscribed, multiset(sent), early, late);
        if ready(next) {
          SendingOne(sendCases[..count], active, subscribed, multiset(sent), early, late, i);
          sent := sent + [sendCases[i]];
          Deactivate(i, active);
          active := active - 1;
        } else {
          i := i + 1;
        }
        next := next + 1;
      }
    }

    /** Takes out the subscription picked by n in the middle of a send. */
    method RemoveCase(n: nat, active: nat, ghost subscribed: multiset<Channel>, ghost sent: multiset<Channel>,
                      ghost early: multiset<Channel>, ghost late: multiset<Channel>)
      returns (ch: Channel, active': nat, ghost early': multiset<Channel>, ghost late': multiset<Channel>)
      requires count <= sendCases.Length && 1 < active
      requires Sending(sendCases[..count], active, subscribed, sent, early, late)
      modifies this`count, sendCases
      ensures count <= sendCases.Length && active' <= active && count == old(count) - 1
      ensures Sending(sendCases[..count], active', subscribed, sent, early', late')
      ensures early' + late' == early + late + multiset{ch}
    {
      hide Sending, Omit;
      ghost var s := sendCases[..count];
      active', early', late' := active, early, late;
      SendingBounds(s, active, subscribed, sent, early, late);
      ch := sendCases[1 + n % (count - 1)];
      assert ch in s[1..];
      var index := Find(sendCases[..count], ch);
      if index < active {
        SendingRemoveEarly(s, active, subscribed, sent, early, late, index);
        early', active' := early + multiset{ch}, active - 1;
      } else {
        SendingRemoveLate(s, active, subscribed, sent, early, late, index);
        late' := late + multiset{ch};
      }
      Delete(index);
    }

    /** Hands the value to the receiver picked by n. */
    method ReceiveCase(n: nat, active: nat, sent: seq<Channel>, ghost subscribed: multiset<Channel>,
                       ghost early: multiset<Channel>, ghost late: multiset<Channel>)
      returns (active': nat, sent': seq<Channel>)
      requires count <= sendCases.Length && 1 < active
      requires Sending(sendCases[..count], active, subscribed, multiset(sent), early, late)
      modifies sendCases
      ensures active' == active - 1 && |sent'| == |sent| + 1
      ensures Sending(sendCases[..count], active', subscribed, multiset(sent'), early, late)
    {
      hide Sending, Swapped;
      SendingBounds(sendCases[..count], active, subscribed, multiset(sent), early, late);
      var chosen := 1 + n % (active - 1);
      SendingOne(sendCases[..count], active, subscribed, multiset(sent), early, late, chosen);
      sent' := sent + [sendCases[chosen]];
      Deactivate(chosen, active);
      active' := active - 1;
    }

    /** Subscribes a channel, or cancels one that is still in the inbox. */
    method Post(m: Mail) returns (joined: seq<Channel>, left: seq<Channel>)
      requires m.channel != REMOVE_SUB && REMOVE_SUB !in inbox
      modifies this`inbox
      ensures REMOVE_SUB !in inbox && multiset(inbox) + multiset(left) == old(multiset(inbox)) + multiset(joined)
      ensures joined == if m.Join? then [m.channel] else []
      ensures left == if m.Leave? && m.channel in old(inbox) then [m.channel] else []
    {
      hide Omit;
      joined, left := [], [];
      if m.Join? {
        inbox, joined := inbox + [m.channel], [m.channel];
      } else {
        var k := Find(inbox, m.channel);
        if k != -1 {
          WithoutAll(inbox, k);
          inbox, left := Omit(inbox, k), [m.channel];
        }
      }
    }

    /** Works off what comes in for the inbox. */
    method Handle(mail: seq<Mail>) returns (joined: seq<Channel>, left: seq<Channel>)
      requires Proven(mail) && REMOVE_SUB !in inbox
      modifies this`inbox
      ensures REMOVE_SUB !in inbox && multiset(inbox) + multiset(left) == old(multiset(inbox)) + multiset(joined)
      ensures forall c :: c in joined <==> Join(c) in mail
      ensures forall c :: c in left ==> Leave(c) in mail
      ensures forall c :: multiset(inbox)[c] == Copies(old(multiset(inbox))[c], c, mail)
    {
      hide Copies;
      joined, left := [], [];
      ghost var box := multiset(inbox);
      assert forall c :: Copies(box[c], c, mail[..0]) == box[c] by { NoCopies(mail[..0]); }
      for i := 0 to |mail|
        invariant REMOVE_SUB !in inbox && multiset(inbox) + multiset(left) == box + multiset(joined)
        invariant forall c :: c in joined <==> Join(c) in mail[..i]
        invariant forall c :: c in left ==> Leave(c) in mail[..i]
        invariant forall c :: multiset(inbox)[c] == Copies(box[c], c, mail[..i])
      {
        assert mail[i] in mail && mail[..i + 1] == mail[..i] + [mail[i]];
        ghost var mid, j, l := multiset(inbox), multiset(joined), multiset(left);
        ghost var was := inbox;
        var come, gone := Post(mail[i]);
        forall c ensures multiset(inbox)[c] == Copies(box[c], c, mail[..i + 1]) {
          PostCounts(was, inbox, come, gone, mail[i], c);
          CopiesNext(box[c], c, mail[..i], mail[i]);
        }
        AddUp(box, mid, multiset(inbox), j, l, multiset(come), multiset(gone));
        AppendCounts(joined, come);
        AppendCounts(left, gone);
        joined, left := joined + come, left + gone;
      }
      assert mail[..|mail|] == mail;
    }

    /** Serves the cases until none is active. */
    method Deliver(ready: nat -> bool, events: nat -> Event, mail: nat -> seq<Mail>)
      returns (nsent: nat, sent: seq<Channel>, removed: seq<Channel>, joined: seq<Channel>, left: seq<Channel>,
               ghost early: multiset<Channel>, ghost late: multiset<Channel>)
      requires count <= sendCases.Length && Proper(sendCases[..count]) && inbox == [] && forall i :: Proven(mail(i))
      modifies this`count, this`inbox, sendCases
      ensures count <= sendCases.Length && nsent == |sent| && multiset(removed) == early + late
      ensures REMOVE_SUB !in inbox && multiset(inbox) + multiset(left) == multiset(joined)
      ensures Sending(sendCases[..count], 1, old(multiset(sendCases[..count][1..])), multiset(sent), early, late)
    {
      hide Sending;
      ghost var subscribed := multiset(sendCases[..count][1..]);
      nsent, sent, removed, joined, left, early, late := 0, [], [], [], [], multiset{}, multiset{};
      var active: nat, tick: nat, event: nat := count, 0, 0;
      SendingStart(sendCases[..count]);
      assert multiset(sent) == multiset{};
      while true
        invariant count <= sendCases.Length && nsent == |sent| && multiset(removed) == early + late
        invariant REMOVE_SUB !in inbox && multiset(inbox) + multiset(left) == multiset(joined)
        invariant Sending(sendCases[..count], active, subscribed, multiset(sent), early, late)
        decreases active + count
      {
        var before := active;
        active, sent, tick := TrySend(active, sent, ready, tick, subscribed, early, late);
        nsent := nsent + before - active;
        SendingBounds(sendCases[..count], active, subscribed, multiset(sent), early, late);
        ghost var box := multiset(inbox);
        var come, gone := Handle(mail(event));
        assert multiset(joined + come) == multiset(joined) + multiset(come);
        assert multiset(left + gone) == multiset(left) + multiset(gone);
        AddUp(multiset{}, box, multiset(inbox), multiset(joined), multiset(left), multiset(come), multiset(gone));
        joined, left := joined + come, left + gone;
        if active == 1 { break; }
        match events(event) {
          case Remove(n) =>
            var ch;
            ch, active, early, late := RemoveCase(n, active, subscribed, multiset(sent), early, late);
            removed := removed + [ch];
          case Receive(n) =>
            active, sent := ReceiveCase(n, active, sent, subscribed, early, late);
            nsent := nsent + 1;
        }
        event := event + 1;
      }
    }

    /** Sends a value. Whatever offers are taken at once, and in whatever order receivers wake up and
        subscriptions are removed, every subscription of the start that was not removed gets the
        value once, a removed one at most once, and the others are still subscribed at the end. Those that
        subscribe meanwhile do not get it, and are subscribed at the end unless they left again. */
    method Send(ready: nat -> bool, events: nat -> Event, mail: nat -> seq<Mail>)
      returns (nsent: nat, sent: seq<Channel>, removed: seq<Channel>, joined: seq<Channel>, left: seq<Channel>,
               ghost early: multiset<Channel>)
      requires Valid() && forall i :: Proven(mail(i))
      modifies this, sendCases
      ensures Valid() && nsent == |sent| && multiset(inbox) + multiset(left) == multiset(joined)
      ensures multiset(sent) + early == old(Subscribed()) && early <= multiset(removed) <= old(Subscribed())
      ensures Subscribed() + multiset(removed) + multiset(left) == old(Subscribed()) + multiset(joined)
      ensures forall c :: old(Subscribed())[c] - multiset(removed)[c] <= multiset(sent)[c] <= old(Subscribed())[c]
    {
      TakeInbox();
      ghost var subscribed, late := Subscribed(), multiset{};
      assert subscribed == multiset(sendCases[..count][1..]);
      nsent, sent, removed, joined, left, early, late := Deliver(ready, events, mail);
      SendingDone(sendCases[..count], subscribed, multiset(sent), early, late);
    }
  }
}
