/**
  The pairing request, one slot per bridge in the server's memory, and its use as a token that starts firmware
  updates: the page posts it, the bridge polls it and clears it before it starts.
 */
module Pairing {

  datatype Verb = Dfu | Connecting | PasskeyNeeded | PasskeyEntered | Paired | Failed | Idle | Unknown

  datatype Request = Request(state: Verb, passkey: string)

  type Slots = map<string, Request>

  function Get(m: Slots, bridge: string): Request
  {
    if bridge in m then m[bridge] else Request(Idle, "")
  }

  datatype Reply = Reply(m: Slots, ok: bool)

  /** The POST handler. */
  function Set(m: Slots, bridge: string, req: Request): Reply
  {
    match req.state
    case Dfu => Reply(m[bridge := Request(Dfu, "")], true)
    case Connecting => if req.passkey == "" then Reply(m, false) else Reply(m[bridge := Request(Connecting, req.passkey)], true)
    case PasskeyNeeded => Reply(m[bridge := Request(PasskeyNeeded, "")], true)
    case PasskeyEntered => if req.passkey == "" then Reply(m, false) else Reply(m[bridge := Request(PasskeyEntered, req.passkey)], true)
    case Paired => Reply(m - {bridge}, true)
    case Failed => Reply(m[bridge := Request(Failed, if req.passkey == "" then "Pairing failed" else req.passkey)], true)
    case Idle => Reply(m - {bridge}, true)
    case Unknown => Reply(m, false)
  }

  /** Which requests are well formed. */
  predicate Accepts(req: Request)
  {
    req.state != Unknown && (req.state == Connecting || req.state == PasskeyEntered ==> req.passkey != "")
  }

  /**
    What is read back after a post: another bridge's request is untouched; a refused post changes nothing; an accepted one
    shows its state, a finished pairing being idle; and the passkey field carries the address, the passkey or the failure,
    and nothing in any other state.
   */
  lemma PostThenGet(m: Slots, bridge: string, req: Request, other: string)
    ensures var after := Set(m, bridge, req); var r := Get(after.m, bridge);
            && after.ok == Accepts(req)
            && (other != bridge ==> Get(after.m, other) == Get(m, other))
            && (!after.ok ==> after.m == m)
            && (after.ok ==> r.state == if req.state == Paired then Idle else req.state)
            && (after.ok && (req.state == Connecting || req.state == PasskeyEntered) ==> r.passkey == req.passkey)
            && (after.ok && req.state == Failed ==> r.passkey == if req.passkey == "" then "Pairing failed" else req.passkey)
            && (after.ok && req.state !in {Connecting, PasskeyEntered, Failed} ==> r.passkey == "")
  {
  }

  class PairingStore {
    var pairing: Slots

    constructor ()
      ensures pairing == map[]
    {
      pairing := map[];
    }

    method GetPairingState(bridge: string) returns (r: Request)
      ensures r == Get(pairing, bridge)
    {
      if bridge in pairing { return pairing[bridge]; }
      return Request(Idle, "");
    }

    method SetPairingState(bridge: string, req: Request) returns (ok: bool)
      modifies this
      ensures Reply(pairing, ok) == Set(old(pairing), bridge, req)
    {
      var current := GetPairingState(bridge);
      ok := true;
      match req.state {
        case Dfu => pairing := pairing[bridge := Request(Dfu, "")];
        case Connecting =>
          if req.passkey == "" { return false; }
          pairing := pairing[bridge := Request(Connecting, req.passkey)];
        case PasskeyNeeded => pairing := pairing[bridge := Request(PasskeyNeeded, "")];
        case PasskeyEntered =>
          if req.passkey == "" { return false; }
          current := current.(passkey := req.passkey, state := PasskeyEntered);
          pairing := pairing[bridge := current];
        case Paired => pairing := pairing - {bridge};
        case Failed =>
          var msg := "Pairing failed";
          if req.passkey != "" { msg := req.passkey; }
          pairing := pairing[bridge := Request(Failed, msg)];
        case Idle => pairing := pairing - {bridge};
        case Unknown => return false;
      }
    }
  }

  // ---------------------------------------------------------------- the token protocol

  /** Where the bridge is in check_pairing_request_: between polls, about to clear the request, about to start. */
  datatype Phase = Waiting | Clearing | Starting

  datatype Action =
    | Post(bridge: string, req: Request)  // any client, this bridge's other posts included
    | Poll(dfuIdle: bool)                 // the bridge reads its slot
    | Clear(arrives: bool)                // its post of "idle", which may be lost
    | Start
    | Restart                             // the server forgets all requests

  /** `requests`, `lost` and `starts` count dfu requests for this bridge, lost clears and start_dfu calls. */
  datatype Token = Token(me: string, m: Slots, phase: Phase, requests: nat, lost: nat, starts: nat)
  {
    predicate Enabled(a: Action)
    {
      match a
      case Poll(_) => phase.Waiting?
      case Clear(_) => phase.Clearing?
      case Start => phase.Starting?
      case _ => true
    }

    function Step(a: Action): Token
      requires Enabled(a)
    {
      match a
      case Post(bridge, req) =>
        this.(m := Set(m, bridge, req).m, requests := requests + if bridge == me && req.state.Dfu? then 1 else 0)
      case Poll(dfuIdle) => if dfuIdle && Get(m, me).state.Dfu? then this.(phase := Clearing) else this
      case Clear(arrives) =>
        if arrives then this.(phase := Starting, m := Set(m, me, Request(Idle, "")).m)
        else this.(phase := Starting, lost := lost + 1)
      case Start => this.(phase := Waiting, starts := starts + 1)
      case Restart => this.(m := map[])
    }

    predicate Runs(acts: seq<Action>)
      decreases |acts|
    {
      acts == [] || (Enabled(acts[0]) && Step(acts[0]).Runs(acts[1..]))
    }

    function Exec(acts: seq<Action>): Token
      requires Runs(acts)
      decreases |acts|
    {
      if acts == [] then this else Step(acts[0]).Exec(acts[1..])
    }

    /** Starts that are still to come for requests already made. */
    function Owed(): nat
    {
      (if phase.Starting? then 1 else 0)
      + if phase.Clearing? || Get(m, me).state.Dfu? then 1 else 0
    }
  }

  function Boot(me: string): Token { Token(me, map[], Waiting, 0, 0, 0) }

  /** Every start, done or owed, is paid for by a request or a lost clear. */
  ghost predicate Paid(t: Token) { t.starts + t.Owed() <= t.requests + t.lost }

  lemma {:induction false} RunPays(t: Token, acts: seq<Action>)
    requires Paid(t) && t.Runs(acts)
    ensures Paid(t.Exec(acts))
    decreases |acts|
  {
    if acts != [] {
      assert Paid(t.Step(acts[0]));
      RunPays(t.Step(acts[0]), acts[1..]);
    }
  }

  /** In every interleaving there are at most as many starts as requests plus lost clears. */
  lemma StartsAreRequested(me: string, acts: seq<Action>)
    requires Boot(me).Runs(acts)
    ensures var t := Boot(me).Exec(acts); t.starts <= t.requests + t.lost
  {
    RunPays(Boot(me), acts);
  }

  /** One round of the bridge when its slot says "dfu" and it has no update running. */
  function Round(arrives: bool): seq<Action> { [Poll(true), Clear(arrives), Start] }

  lemma RoundStarts(t: Token, arrives: bool)
    requires t.phase.Waiting? && Get(t.m, t.me).state.Dfu?
    ensures t.Runs(Round(arrives))
    ensures var u := t.Exec(Round(arrives));
            && u.starts == t.starts + 1 && u.phase.Waiting? && u.me == t.me && u.requests == t.requests
            && u.lost == t.lost + (if arrives then 0 else 1)
            && (Get(u.m, u.me).state.Dfu? <==> !arrives)
  {
    var a := t.Step(Poll(true));
    var b := a.Step(Clear(arrives));
    Cons(b, Start, []);
    assert [Start] + [] == [Start];
    Cons(a, Clear(arrives), [Start]);
    Cons(t, Poll(true), [Clear(arrives), Start]);
    assert [Clear(arrives)] + [Start] == [Clear(arrives), Start];
    assert [Poll(true)] + [Clear(arrives), Start] == Round(arrives);
  }

  lemma Cons(t: Token, a: Action, acts: seq<Action>)
    requires t.Enabled(a) && t.Step(a).Runs(acts)
    ensures t.Runs([a] + acts) && t.Exec([a] + acts) == t.Step(a).Exec(acts)
  {
    assert ([a] + acts)[1..] == acts;
  }
}
