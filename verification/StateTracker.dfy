/** Which ONVIF motion states are asserted, and which legacy ones are suppressed after expiry. */
module StateTracker {

  type Key = string

  datatype State = State(assertedAt: int, renewable: bool)

  /** `suppressed` holds the keys whose legacy lifetime has run out. */
  datatype Tracker = Tracker(asserted: map<Key, State>, suppressed: set<Key>)

  const EMPTY: Tracker := Tracker(map[], {})

  predicate Active(t: Tracker) {
    t.asserted != map[]
  }

  predicate Accepts(t: Tracker, key: Key, active: bool, renewable: bool) {
    !active || renewable || key !in t.suppressed
  }

  function Update(t: Tracker, key: Key, active: bool, now: int, renewable: bool): Tracker {
    if !active then Tracker(t.asserted - {key}, t.suppressed - {key})
    else if renewable then Tracker(t.asserted[key := State(now, true)], t.suppressed - {key})
    else if key in t.suppressed || key in t.asserted then t
    else t.(asserted := t.asserted[key := State(now, false)])
  }

  predicate RunOut(state: State, now: int, timeout: int) {
    now - state.assertedAt >= timeout
  }

  function Expire(t: Tracker, now: int, timeout: int): Tracker {
    Tracker(map k | k in t.asserted && !RunOut(t.asserted[k], now, timeout) :: t.asserted[k],
            t.suppressed + set k | k in t.asserted && RunOut(t.asserted[k], now, timeout) && !t.asserted[k].renewable)
  }

  class OnvifStateTracker {
    var asserted: map<Key, State>
    var suppressed: set<Key>

    function View(): Tracker
      reads this
    {
      Tracker(asserted, suppressed)
    }

    constructor ()
      ensures View() == EMPTY
    {
      asserted, suppressed := map[], {};
    }

    /** Returns false for a suppressed legacy assertion, whose edge must not trigger either. */
    method UpdateState(key: Key, active: bool, now: int, renewable: bool) returns (accepted: bool)
      modifies this
      ensures View() == Update(old(View()), key, active, now, renewable)
      ensures accepted == Accepts(old(View()), key, active, renewable)
    {
      if active {
        if renewable {
          suppressed := suppressed - {key};
          asserted := asserted[key := State(now, true)];
        } else {
          if key in suppressed {
            return false;
          }
          if key !in asserted {
            asserted := asserted[key := State(now, false)];
          }
        }
      } else {
        asserted := asserted - {key};
        suppressed := suppressed - {key};
      }
      return true;
    }

    /** Erases every state whose time is up, in whatever order the map yields them. */
    method ExpireStates(now: int, timeout: int) returns (expired: seq<Key>)
      modifies this
      ensures View() == Expire(old(View()), now, timeout)
      ensures forall k :: k in expired <==> k in old(asserted) && RunOut(old(asserted)[k], now, timeout)
      ensures forall i, j :: 0 <= i < j < |expired| ==> expired[i] != expired[j]
    {
      expired := [];
      ghost var before := View();
      var rest := asserted.Keys;
      while rest != {}
        invariant rest <= before.asserted.Keys
        invariant forall k :: k in expired <==>
                    k in before.asserted && k !in rest && RunOut(before.asserted[k], now, timeout)
        invariant forall i, j :: 0 <= i < j < |expired| ==> expired[i] != expired[j]
        invariant forall k :: k in asserted <==> k in before.asserted && k !in expired
        invariant forall k :: k in asserted ==> asserted[k] == before.asserted[k]
        invariant forall k :: k in suppressed <==>
                    k in before.suppressed || (k in expired && !before.asserted[k].renewable)
        decreases |rest|
      {
        var key :| key in rest;
        rest := rest - {key};
        if RunOut(asserted[key], now, timeout) {
          expired := expired + [key];
          if !asserted[key].renewable {
            suppressed := suppressed + {key};
          }
          asserted := asserted - {key};
        }
      }
    }

    method IsActive() returns (active: bool)
      ensures active == Active(View())
    {
      active := asserted != map[];
    }

    method Clear()
      modifies this
      ensures View() == EMPTY
    {
      asserted, suppressed := map[], {};
    }
  }

  // ---- Replaying the message history ----

  datatype Message =
    | Notified(key: Key, active: bool, now: int, renewable: bool)
    | Expired(now: int, timeout: int)
    | Cleared

  function Apply(t: Tracker, m: Message): Tracker {
    match m
    case Notified(key, active, now, renewable) => Update(t, key, active, now, renewable)
    case Expired(now, timeout) => Expire(t, now, timeout)
    case Cleared => EMPTY
  }

  function Replay(h: seq<Message>): Tracker {
    if h == [] then EMPTY else Apply(Replay(h[..|h| - 1]), h[|h| - 1])
  }

  predicate Resets(m: Message, key: Key) {
    m.Cleared? || (m.Notified? && m.key == key && !m.active)
  }

  predicate Asserts(m: Message, key: Key) {
    m.Notified? && m.key == key && m.active
  }

  /** One past the last `false` or clear for the key. */
  function LastReset(h: seq<Message>, key: Key): (r: nat)
    ensures r <= |h|
    ensures r > 0 ==> Resets(h[r - 1], key)
    ensures forall i :: r <= i < |h| ==> !Resets(h[i], key)
  {
    if h == [] then 0 else if Resets(h[|h| - 1], key) then |h| else LastReset(h[..|h| - 1], key)
  }

  /** The first `true` since then, or the length. */
  function FirstAssertion(h: seq<Message>, key: Key): (f: nat)
    ensures LastReset(h, key) <= f <= |h|
    ensures forall i :: LastReset(h, key) <= i < f ==> !Asserts(h[i], key)
    ensures f < |h| ==> Asserts(h[f], key)
  {
    if h == [] then 0
    else
      var n := |h| - 1;
      if Resets(h[n], key) then |h|
      else if FirstAssertion(h[..n], key) < n || Asserts(h[n], key) then FirstAssertion(h[..n], key)
      else |h|
  }

  /** The latest `true` since then, or -1. */
  function LatestAssertion(h: seq<Message>, key: Key): (l: int)
    ensures l < |h|
    ensures l < 0 ==> forall i :: LastReset(h, key) <= i < |h| ==> !Asserts(h[i], key)
    ensures l >= 0 ==> LastReset(h, key) <= l && Asserts(h[l], key) && forall i :: l < i < |h| ==> !Asserts(h[i], key)
  {
    if h == [] then -1
    else
      var n := |h| - 1;
      if Resets(h[n], key) then -1 else if Asserts(h[n], key) then n else LatestAssertion(h[..n], key)
  }

  /** Some expiry pass after message `from` found a state asserted at `since` too old. */
  ghost predicate TimedOut(h: seq<Message>, from: nat, since: int) {
    exists i :: from < i < |h| && h[i].Expired? && h[i].now - since >= h[i].timeout
  }

  lemma TimedOutStep(h: seq<Message>, from: nat, since: int)
    requires from < |h| - 1
    ensures var n := |h| - 1;
            TimedOut(h, from, since) <==>
            (TimedOut(h[..n], from, since) || (h[n].Expired? && h[n].now - since >= h[n].timeout))
  {
    var n := |h| - 1;
    if TimedOut(h[..n], from, since) {
      var i :| from < i < n && h[..n][i].Expired? && h[..n][i].now - since >= h[..n][i].timeout;
      assert h[i].Expired?;
    }
    if TimedOut(h, from, since) {
      var i :| from < i < |h| && h[i].Expired? && h[i].now - since >= h[i].timeout;
      assert i < n ==> h[..n][i].Expired?;
    }
  }

  predicate Legacy(h: seq<Message>) {
    forall i :: 0 <= i < |h| && h[i].Notified? ==> !h[i].renewable
  }

  predicate Renewable(h: seq<Message>) {
    forall i :: 0 <= i < |h| && h[i].Notified? ==> h[i].renewable
  }

  /**
   A legacy state lives from its first `true` since the last `false` or clear: repeats never
   extend it, and once an expiry pass has found it too old it stays suppressed.
   */
  lemma {:induction false} LegacyReplay(h: seq<Message>, key: Key)
    requires Legacy(h)
    ensures var t, f := Replay(h), FirstAssertion(h, key);
            if f == |h| then key !in t.asserted && key !in t.suppressed
            else if TimedOut(h, f, h[f].now) then key !in t.asserted && key in t.suppressed
            else key in t.asserted && t.asserted[key] == State(h[f].now, false) && key !in t.suppressed
  {
    if h != [] {
      var n := |h| - 1;
      LegacyReplay(h[..n], key);
      var f := FirstAssertion(h[..n], key);
      if f < n {
        TimedOutStep(h, f, h[f].now);
      }
    }
  }

  /** A renewable state lives from its latest `true`, and is never suppressed. */
  lemma {:induction false} RenewableReplay(h: seq<Message>, key: Key)
    requires Renewable(h)
    ensures var t, l := Replay(h), LatestAssertion(h, key);
            && key !in t.suppressed
            && (key in t.asserted <==> l >= 0 && !TimedOut(h, l, h[l].now))
            && (key in t.asserted ==> t.asserted[key] == State(h[l].now, true))
  {
    if h != [] {
      var n := |h| - 1;
      RenewableReplay(h[..n], key);
      var l := LatestAssertion(h[..n], key);
      if l >= 0 {
        TimedOutStep(h, l, h[l].now);
      }
    }
  }

  /** A legacy notification is refused exactly when its state has run out and was not reset since. */
  lemma RefusedWhileSuppressed(h: seq<Message>, key: Key, active: bool)
    requires Legacy(h)
    ensures var f := FirstAssertion(h, key);
            !Accepts(Replay(h), key, active, false) <==> active && f < |h| && TimedOut(h, f, h[f].now)
  {
    LegacyReplay(h, key);
  }

  /** In any mixture of modes a key is never asserted and suppressed at once. */
  lemma {:induction false} AssertedXorSuppressed(h: seq<Message>)
    ensures Replay(h).asserted.Keys !! Replay(h).suppressed
  {
    if h != [] {
      AssertedXorSuppressed(h[..|h| - 1]);
    }
  }
}
