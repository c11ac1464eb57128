/** The life of an SSH launch: internal/hub/ssh.go lines 64-109, 232-239 and 260-279. Times are in milliseconds. */
module SshProtocol {

  const LAUNCH_TTL: int := 300_000

  datatype Launch = Launch(system: string, expires: int, used: bool)

  /** `closed` counts how often the channel `done` was closed; Go panics at the second time. */
  datatype Tunnel = Tunnel(token: string, closed: nat)

  /** A successful take. */
  datatype Taken = Taken(token: string, system: string, time: int, expires: int)

  /** `launch` and `tunnels` are the two maps; tunnels are numbered in order of creation. `connecting` are the
      tokens between take and the insertion of the tunnel; `revoked` the tunnels that a revocation took out of
      the map, and `closing` those of them whose channel was found open. */
  datatype State = State(launch: map<string, Launch>, tunnels: map<string, nat>, all: seq<Tunnel>, issued: set<string>,
                         connecting: set<string>, revoked: set<nat>, closing: set<nat>, taken: seq<Taken>, now: int)

  datatype Step =
    | Create(token: string, system: string)
    | Take(token: string)
    | Connect(token: string)      // the tunnel goes into the map
    | FailUpgrade(token: string)
    | Remove(token: string)
    | Revoke(token: string)       // the part of revokeSSHLaunch under the lock
    | CheckDone(k: nat)           // the select: is the channel closed already?
    | CloseDone(k: nat)           // close(tunnel.done)
    | Tick(ms: nat)

  /** Tokens are 32 random bytes, taken to be unique. */
  predicate Enabled(s: State, step: Step) {
    match step
    case Create(token, _) => token !in s.issued
    case Connect(token) => token in s.connecting
    case FailUpgrade(token) => token in s.connecting
    case CheckDone(k) => k in s.revoked && k < |s.all|
    case CloseDone(k) => k in s.closing && k < |s.all|
    case _ => true
  }

  predicate MayTake(s: State, token: string) {
    token in s.launch && !s.launch[token].used && s.now <= s.launch[token].expires
  }

  function Closed(s: State, k: nat): State
    requires k < |s.all|
  {
    s.(all := s.all[k := s.all[k].(closed := s.all[k].closed + 1)])
  }

  function Apply(s: State, step: Step): State
    requires Enabled(s, step)
  {
    match step
    case Create(token, system) =>
      s.(launch := s.launch[token := Launch(system, s.now + LAUNCH_TTL, false)], issued := s.issued + {token})
    case Take(token) =>
      if !MayTake(s, token) then s
      else s.(launch := s.launch - {token}, connecting := s.connecting + {token},
              taken := s.taken + [Taken(token, s.launch[token].system, s.now, s.launch[token].expires)])
    case Connect(token) =>
      s.(tunnels := s.tunnels[token := |s.all|], all := s.all + [Tunnel(token, 0)], connecting := s.connecting - {token})
    case FailUpgrade(token) => s.(connecting := s.connecting - {token})
    case Remove(token) =>
      if token in s.tunnels && s.tunnels[token] < |s.all| then Closed(s, s.tunnels[token]).(tunnels := s.tunnels - {token}) else s
    case Revoke(token) =>
      s.(launch := s.launch - {token}, tunnels := s.tunnels - {token},
         revoked := if token in s.tunnels then s.revoked + {s.tunnels[token]} else s.revoked)
    case CheckDone(k) =>
      s.(revoked := s.revoked - {k}, closing := if s.all[k].closed == 0 then s.closing + {k} else s.closing)
    case CloseDone(k) => Closed(s, k).(closing := s.closing - {k})
    case Tick(ms) => s.(now := s.now + ms)
  }

  function Init(now: int): State {
    State(map[], map[], [], {}, {}, {}, {}, [], now)
  }

  // ---------------------------------------------------------------------------------------------
  // What every step keeps
  // ---------------------------------------------------------------------------------------------

  /** A token is issued, then taken, then has a tunnel; it is never in two places. */
  ghost predicate TokensAreSingle(s: State) {
    && (forall t | t in s.launch :: t in s.issued && t !in s.connecting && !s.launch[t].used)
    && (forall t | t in s.connecting :: t in s.issued)
    && (forall k | 0 <= k < |s.all| :: s.all[k].token in s.issued && s.all[k].token !in s.launch && s.all[k].token !in s.connecting)
    && (forall j, k | 0 <= j < k < |s.all| :: s.all[j].token != s.all[k].token)
    && (forall t | t in s.tunnels :: s.tunnels[t] < |s.all| && s.all[s.tunnels[t]].token == t)
  }

  predicate InMap(s: State, k: nat) {
    k < |s.all| && s.all[k].token in s.tunnels && s.tunnels[s.all[k].token] == k
  }

  /** A tunnel is in the map, on its way to be closed by one revocation, or closed once. */
  ghost predicate ClosedOnce(s: State) {
    && (forall k | k in s.revoked :: k < |s.all| && s.all[k].closed == 0 && !InMap(s, k) && k !in s.closing)
    && (forall k | k in s.closing :: k < |s.all| && s.all[k].closed == 0 && !InMap(s, k))
    && (forall k | 0 <= k < |s.all| ::
          if InMap(s, k) then s.all[k].closed == 0
          else s.all[k].closed == if k in s.revoked || k in s.closing then 0 else 1)
  }

  /** A token that was taken is not waiting any more, and it was taken in time. */
  ghost predicate TakesAreSingle(s: State) {
    && (forall i | 0 <= i < |s.taken| :: s.taken[i].token in s.issued && s.taken[i].token !in s.launch && s.taken[i].time <= s.taken[i].expires)
    && (forall i, j | 0 <= i < j < |s.taken| :: s.taken[i].token != s.taken[j].token)
  }

  ghost predicate Valid(s: State) {
    TokensAreSingle(s) && ClosedOnce(s) && TakesAreSingle(s)
  }

  lemma TokensKept(s: State, step: Step)
    requires TokensAreSingle(s) && Enabled(s, step)
    ensures TokensAreSingle(Apply(s, step))
  {
  }

  lemma ClosedOnceKept(s: State, step: Step)
    requires TokensAreSingle(s) && ClosedOnce(s) && Enabled(s, step)
    ensures ClosedOnce(Apply(s, step))
  {
    if step.Remove? || step.Connect? || step.Revoke? {
      ClosedOnceWithMap(s, step);
    } else {
      ClosedOnceWithoutMap(s, step);
    }
  }

  lemma ClosedOnceWithMap(s: State, step: Step)
    requires TokensAreSingle(s) && ClosedOnce(s) && Enabled(s, step) && (step.Remove? || step.Connect? || step.Revoke?)
    ensures ClosedOnce(Apply(s, step))
  {
    var t := Apply(s, step);
    forall k | 0 <= k < |s.all|
      ensures InMap(t, k) <==> InMap(s, k) && (step.Connect? || s.all[k].token != step.token)
    {
    }
  }

  lemma ClosedOnceWithoutMap(s: State, step: Step)
    requires ClosedOnce(s) && Enabled(s, step) && !step.Remove? && !step.Connect? && !step.Revoke?
    ensures ClosedOnce(Apply(s, step))
  {
    var t := Apply(s, step);
    forall k | 0 <= k < |s.all|
      ensures InMap(t, k) <==> InMap(s, k)
    {
    }
  }

  lemma TakesKept(s: State, step: Step)
    requires TakesAreSingle(s) && TokensAreSingle(s) && Enabled(s, step)
    ensures TakesAreSingle(Apply(s, step))
  {
  }

  lemma StepKeepsValid(s: State, step: Step)
    requires Valid(s) && Enabled(s, step)
    ensures Valid(Apply(s, step))
  {
    hide TokensAreSingle, ClosedOnce, TakesAreSingle, Apply, Enabled;
    TokensKept(s, step);
    ClosedOnceKept(s, step);
    TakesKept(s, step);
  }

  ghost function Next(s: State, step: Step): (t: State)
    requires Valid(s)
    ensures Valid(t)
  {
    if Enabled(s, step) then StepKeepsValid(s, step); Apply(s, step) else s
  }

  /** The state after any sequence of steps; a step that is not enabled does not happen. */
  ghost function From(s: State, steps: seq<Step>): (t: State)
    requires Valid(s)
    ensures Valid(t)
    decreases |steps|
  {
    if steps == [] then s else Next(From(s, steps[..|steps| - 1]), steps[|steps| - 1])
  }

  ghost function After(now: int, steps: seq<Step>): (s: State)
    ensures Valid(s)
  {
    From(Init(now), steps)
  }

  // ---------------------------------------------------------------------------------------------
  // Consequences
  // ---------------------------------------------------------------------------------------------

  /** In every interleaving a token is taken at most once, and not after it expired. */
  lemma TakenAtMostOnce(now: int, steps: seq<Step>, i: nat, j: nat)
    requires i < |After(now, steps).taken| && j < |After(now, steps).taken|
    ensures var taken := After(now, steps).taken;
            (taken[i].token == taken[j].token ==> i == j) && taken[i].time <= taken[i].expires
  {
    hide After;
  }

  /** No token is both waiting to be taken and the token of a tunnel. */
  lemma NeverInBothMaps(now: int, steps: seq<Step>, token: string)
    ensures var s := After(now, steps); !(token in s.launch && token in s.tunnels)
  {
    hide After;
  }

  /** The channel of a tunnel is closed at most once, and not while the tunnel is in the map; a tunnel that is out
      of the map is closed, or exactly one revocation is about to close it and will find it open. */
  lemma DoneIsClosedOnce(now: int, steps: seq<Step>, k: nat)
    requires k < |After(now, steps).all|
    ensures var s := After(now, steps);
            && s.all[k].closed <= 1
            && (InMap(s, k) ==> s.all[k].closed == 0)
            && (!InMap(s, k) ==> s.all[k].closed == 1 || (k in s.revoked && k !in s.closing) || (k in s.closing && k !in s.revoked))
            && (k in s.revoked || k in s.closing ==> s.all[k].closed == 0)
  {
    hide After;
  }

  /** A token can only be taken if it was issued, not revoked, not taken before and has not expired, and then it
      is; a second take in the resulting state fails. */
  lemma TakeOnlyWorksOnce(s: State, token: string)
    requires Valid(s)
    ensures var t := Next(s, Take(token));
            && (t.taken != s.taken <==> token in s.launch && s.now <= s.launch[token].expires)
            && Next(t, Take(token)) == t
  {
    hide ClosedOnce;
  }

  /** A launch that waits was created for its system, and expires five minutes after that. */
  lemma {:induction false} LaunchWasCreated(now: int, steps: seq<Step>, token: string) returns (n: nat)
    requires token in After(now, steps).launch
    ensures n < |steps| && steps[n] == Create(token, After(now, steps).launch[token].system)
    ensures After(now, steps).launch[token].expires == After(now, steps[..n]).now + 300_000
    decreases |steps|
  {
    hide Valid, TokensAreSingle, ClosedOnce, TakesAreSingle;
    var last := |steps| - 1;
    InitIsValid(now);
    if steps[last].Create? && steps[last].token == token && token !in After(now, steps[..last]).issued {
      n := last;
    } else {
      n := LaunchWasCreated(now, steps[..last], token);
      assert steps[..last][..n] == steps[..n];
    }
  }

  /** Every take was of a token created for that system no more than five minutes before. */
  lemma {:induction false} TakenWasCreated(now: int, steps: seq<Step>, i: nat) returns (n: nat, m: nat)
    requires i < |After(now, steps).taken|
    ensures var a := After(now, steps).taken[i];
            && n < m < |steps| && steps[n] == Create(a.token, a.system) && steps[m] == Take(a.token)
            && a.time == After(now, steps[..m]).now <= After(now, steps[..n]).now + 300_000
    decreases |steps|
  {
    hide Valid, TokensAreSingle, ClosedOnce, TakesAreSingle;
    var last := |steps| - 1;
    InitIsValid(now);
    if i < |After(now, steps[..last]).taken| {
      n, m := TakenWasCreated(now, steps[..last], i);
      assert steps[..last][..m] == steps[..m] && steps[..last][..n] == steps[..n];
    } else {
      m := last;
      n := LaunchWasCreated(now, steps[..last], steps[last].token);
      assert steps[..last][..n] == steps[..n];
    }
  }

  /** And a launch lasts: until its token is taken or revoked a take succeeds exactly if no more than five minutes have
      passed since it was created, and is then for the system that it was created for. */
  lemma LaunchLasts(s: State, steps: seq<Step>, token: string, system: string)
    requires Valid(s) && token !in s.issued
    requires Take(token) !in steps && Revoke(token) !in steps
    ensures var t := From(Next(s, Create(token, system)), steps);
            Next(t, Take(token)).taken ==
            t.taken + if t.now <= s.now + 300_000 then [Taken(token, system, t.now, s.now + 300_000)] else []
  {
    hide ClosedOnce, TakesAreSingle, TokensAreSingle, From;
    LaunchStays(Next(s, Create(token, system)), steps, token);
  }

  lemma {:induction false} LaunchStays(s: State, steps: seq<Step>, token: string)
    requires Valid(s) && token in s.launch && Take(token) !in steps && Revoke(token) !in steps
    ensures token in From(s, steps).launch && From(s, steps).launch[token] == s.launch[token]
    decreases |steps|
  {
    hide Valid, Next;
    if steps != [] {
      var init, step := steps[..|steps| - 1], steps[|steps| - 1];
      assert step in steps;
      LaunchStays(s, init, token);
      LaunchKept(From(s, init), step, token);
    }
  }

  lemma LaunchKept(s: State, step: Step, token: string)
    requires Valid(s) && token in s.launch && step != Take(token) && step != Revoke(token)
    ensures token in Next(s, step).launch && Next(s, step).launch[token] == s.launch[token]
  {
    hide ClosedOnce, TakesAreSingle;
  }

  /** Right after a revocation the token cannot be taken and has no tunnel in the map. */
  lemma RevokedIsGone(s: State, token: string)
    requires Valid(s)
    ensures var t := Next(s, Revoke(token));
            && token !in t.launch && token !in t.tunnels && Next(t, Take(token)) == t && Next(t, Remove(token)) == t
  {
    hide ClosedOnce, TakesAreSingle;
  }

  /** What a token that was issued can never come back from: being out of `launch`, and being nowhere at all. */
  predicate Withdrawn(s: State, token: string) {
    token in s.issued && token !in s.launch
  }

  predicate Gone(s: State, token: string) {
    Withdrawn(s, token) && token !in s.connecting && token !in s.tunnels
  }

  lemma {:induction false} StaysGone(s: State, steps: seq<Step>, token: string)
    requires Valid(s) && Withdrawn(s, token)
    ensures Withdrawn(From(s, steps), token)
    ensures Gone(s, token) ==> Gone(From(s, steps), token)
    decreases |steps|
  {
    hide Valid, TokensAreSingle, ClosedOnce, TakesAreSingle;
    if steps != [] {
      StaysGone(s, steps[..|steps| - 1], token);
    }
  }

  /** After the revocation of a token that was issued no later state offers it again. It never has a tunnel in a
      later state exactly if it was not between take and insertion at the time: a revocation misses such a one. */
  lemma RevokedIsGoneIff(s: State, token: string)
    requires Valid(s) && token in s.issued
    ensures forall steps: seq<Step> :: token !in From(Next(s, Revoke(token)), steps).launch
    ensures (forall steps: seq<Step> :: token !in From(Next(s, Revoke(token)), steps).tunnels) <==> token !in s.connecting
  {
    hide ClosedOnce, TakesAreSingle;
    var t := Next(s, Revoke(token));
    assert Withdrawn(t, token) && (token !in s.connecting ==> Gone(t, token));
    forall steps: seq<Step>
      ensures token !in From(t, steps).launch && (token !in s.connecting ==> token !in From(t, steps).tunnels)
    {
      StaysGone(t, steps, token);
    }
    if token in s.connecting {
      ConnectsAfter(t, token);
      var steps := [Connect(token)];
      assert token in From(t, steps).tunnels;
      assert !(forall steps: seq<Step> :: token !in From(t, steps).tunnels);
    }
  }

  lemma ConnectsAfter(s: State, token: string)
    requires Valid(s) && token in s.connecting
    ensures token in From(s, [Connect(token)]).tunnels
  {
    hide Valid, TokensAreSingle, ClosedOnce, TakesAreSingle;
    assert [Connect(token)][..0] == [];
    assert From(s, []) == s;
  }

  lemma InitIsValid(now: int)
    ensures Valid(Init(now))
  {
  }

  /** Such a run: the token is taken, revoked, and then connected. */
  function LateRevocation(): seq<Step> {
    [Create("t", "system"), Take("t"), Revoke("t"), Connect("t")]
  }

  lemma LateRevocationIsMissed(now: int)
    ensures "t" in After(now, LateRevocation()).tunnels
  {
    hide Valid, TokensAreSingle, ClosedOnce, TakesAreSingle;
    var steps := LateRevocation();
    assert steps[..1] == [Create("t", "system")] && steps[..1][..0] == [];
    assert steps[..2][..1] == steps[..1] && steps[..3][..2] == steps[..2];
    InitIsValid(now);
    var s0 := Init(now);
    assert From(s0, steps[..1][..0]) == s0;
    var s1 := From(s0, steps[..1]);
    assert s1 == Next(s0, steps[0]) && MayTake(s1, "t");
    var s2 := From(s0, steps[..2]);
    assert s2 == Next(s1, steps[1]) && "t" in s2.connecting;
    var s3 := From(s0, steps[..3]);
    assert s3 == Next(s2, steps[2]) && "t" in s3.connecting;
    assert After(now, steps) == Next(s3, steps[3]);
  }
}

/** The maps and the tunnels as objects. */
module SshManagers {
  import opened SshProtocol

  class TunnelObject {
    const token: string
    var closed: nat
    ghost const Index: nat

    constructor (token: string, ghost index: nat)
      ensures View() == Tunnel(token, 0) && Index == index
    {
      this.token := token;
      closed := 0;
      Index := index;
    }

    ghost function View(): Tunnel
      reads this
    {
      Tunnel(token, closed)
    }

    /** close(tunnel.done), which panics on a closed channel. */
    method CloseChannel()
      requires closed == 0
      modifies this
      ensures View() == old(View()).(closed := old(closed) + 1)
    {
      closed := closed + 1;
    }
  }

  class SshManager {
    var launch: map<string, Launch>
    var tunnels: map<string, TunnelObject>
    var now: int
    ghost var all: seq<TunnelObject>
    ghost var issued: set<string>
    ghost var connecting: set<string>
    ghost var revoked: set<nat>
    ghost var closing: set<nat>
    ghost var taken: seq<Taken>

    ghost function Views(): (views: seq<Tunnel>)
      reads this, all
      ensures |views| == |all|
    {
      seq(|all|, k requires 0 <= k < |all| reads this, all => all[k].View())
    }

    ghost function State(): State
      reads this, all
    {
      SshProtocol.State(launch, map t | t in tunnels :: tunnels[t].Index, Views(), issued, connecting, revoked, closing, taken, now)
    }

    ghost predicate Linked()
      reads this
    {
      && (forall k | 0 <= k < |all| :: all[k].Index == k)
      && (forall t | t in tunnels :: tunnels[t].token == t && Owns(tunnels[t]))
    }

    ghost predicate Owns(tunnel: TunnelObject)
      reads this
    {
      tunnel.Index < |all| && all[tunnel.Index] == tunnel
    }

    ghost predicate Valid()
      reads this, all
    {
      Linked() && SshProtocol.Valid(State())
    }

    constructor (now: int)
      ensures Valid() && State() == Init(now)
    {
      launch, tunnels := map[], map[];
      this.now := now;
      all, issued, connecting, revoked, closing, taken := [], {}, {}, {}, {}, [];
    }

    /** create, with the token that the random source gave. */
    method Create(system: string, token: string)
      requires Valid() && token !in issued
      modifies this
      ensures Valid() && all == old(all) && State() == Apply(old(State()), Step.Create(token, system))
    {
      hide SshProtocol.Valid;
      StepKeepsValid(State(), Step.Create(token, system));
      launch := launch[token := Launch(system, now + LAUNCH_TTL, false)];
      issued := issued + {token};
      assert Views() == old(Views());
    }

    /** take. */
    method Take(token: string) returns (taker: Launch, ok: bool)
      requires Valid()
      modifies this
      ensures Valid() && all == old(all) && State() == Apply(old(State()), Step.Take(token))
      ensures ok <==> MayTake(old(State()), token)
      ensures ok ==> token in connecting && taker == old(launch)[token].(used := true)
      ensures ok ==> taken == old(taken) + [Taken(token, taker.system, now, taker.expires)]
    {
      hide SshProtocol.Valid;
      StepKeepsValid(State(), Step.Take(token));
      taker := Launch("", 0, false);
      if token !in launch || launch[token].used || now > launch[token].expires {
        return taker, false;
      }
      taker := launch[token].(used := true);
      taken := taken + [Taken(token, taker.system, now, taker.expires)];
      connecting := connecting + {token};
      launch := launch - {token};
      assert Views() == old(Views());
      ok := true;
    }

    /** The insertion of the tunnel in connectUser. */
    method InsertTunnel(token: string) returns (tunnel: TunnelObject)
      requires Valid() && token in connecting
      modifies this
      ensures Valid() && fresh(tunnel) && all == old(all) + [tunnel] && State() == Apply(old(State()), Step.Connect(token))
    {
      hide SshProtocol.Valid;
      StepKeepsValid(State(), Step.Connect(token));
      tunnel := new TunnelObject(token, |all|);
      tunnels := tunnels[token := tunnel];
      all := all + [tunnel];
      connecting := connecting - {token};
      assert Views() == old(Views()) + [tunnel.View()];
      assert State() == Apply(old(State()), Step.Connect(token));
    }

    twostate lemma OneChanged(tunnel: TunnelObject)
      requires old(Linked()) && all == old(all) && old(Owns(tunnel))
      requires forall k | 0 <= k < |all| && k != tunnel.Index :: all[k].View() == old(all[k].View())
      ensures tunnel.Index < |all| && Views() == old(Views())[tunnel.Index := tunnel.View()]
    {
    }

    /** In a valid state the channel of a tunnel in the map, or of one that a revocation has, is open. */
    lemma IsOpen(tunnel: TunnelObject)
      requires Valid() && Owns(tunnel)
      requires (tunnel.token in tunnels && tunnels[tunnel.token] == tunnel) || tunnel.Index in revoked || tunnel.Index in closing
      ensures tunnel.closed == 0
    {
      hide TokensAreSingle, TakesAreSingle;
      assert State().all[tunnel.Index] == tunnel.View();
    }

    /** remove. */
    method Remove(token: string)
      requires Valid()
      modifies this, all
      ensures Valid() && all == old(all) && State() == Apply(old(State()), Step.Remove(token))
    {
      hide SshProtocol.Valid;
      StepKeepsValid(State(), Step.Remove(token));
      if token in tunnels {
        var tunnel := tunnels[token];
        IsOpen(tunnel);
        tunnel.CloseChannel();
        OneChanged(tunnel);
        tunnels := tunnels - {token};
        assert State() == Apply(old(State()), Step.Remove(token));
      }
    }

    /** The part of revokeSSHLaunch under the lock. */
    method Revoke(token: string) returns (tunnel: TunnelObject?)
      requires Valid()
      modifies this
      ensures Valid() && all == old(all) && State() == Apply(old(State()), Step.Revoke(token))
      ensures tunnel != null <==> token in old(tunnels)
      ensures tunnel != null ==> Owns(tunnel) && tunnel.Index in revoked
    {
      hide SshProtocol.Valid;
      StepKeepsValid(State(), Step.Revoke(token));
      launch := launch - {token};
      tunnel := if token in tunnels then tunnels[token] else null;
      if tunnel != null {
        revoked := revoked + {tunnel.Index};
        tunnels := tunnels - {token};
      }
      assert Views() == old(Views());
      assert State() == Apply(old(State()), Step.Revoke(token));
    }

    /** The select after the lock was released: the channel is always found open. */
    method CheckChannel(tunnel: TunnelObject) returns (isOpen: bool)
      requires Valid() && Owns(tunnel) && tunnel.Index in revoked
      modifies this
      ensures Valid() && all == old(all) && State() == Apply(old(State()), CheckDone(tunnel.Index))
      ensures isOpen && tunnel.Index in closing && Owns(tunnel)
    {
      hide SshProtocol.Valid;
      IsOpen(tunnel);
      StepKeepsValid(State(), CheckDone(tunnel.Index));
      assert State().all[tunnel.Index] == tunnel.View();
      isOpen := tunnel.closed == 0;
      revoked := revoked - {tunnel.Index};
      closing := closing + {tunnel.Index};
      assert Views() == old(Views());
    }

    /** close(tunnel.done) at the end of revokeSSHLaunch. */
    method CloseRevoked(tunnel: TunnelObject)
      requires Valid() && Owns(tunnel) && tunnel.Index in closing
      modifies this, tunnel
      ensures Valid() && all == old(all) && State() == Apply(old(State()), CloseDone(tunnel.Index))
    {
      hide SshProtocol.Valid;
      IsOpen(tunnel);
      StepKeepsValid(State(), CloseDone(tunnel.Index));
      tunnel.CloseChannel();
      OneChanged(tunnel);
      closing := closing - {tunnel.Index};
      assert State() == Apply(old(State()), CloseDone(tunnel.Index));
    }
  }
}
