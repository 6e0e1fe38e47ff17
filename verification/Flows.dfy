/** The flows a user-space network stack carries: each takes one of its link's share and one of the stack's for its
    whole life. */
module Flows {

  const MAX_LINK_FLOWS := 1024
  const MAX_STACK_FLOWS := 4096

  /** One end of a flow's splice: the guest's, or the host's. */
  datatype Side = Side(flow: nat, host: bool)

  /** `active` are the flows admitted, `flows` the sides kept for the link's close, and `splices` the splices that run.
      */
  datatype Link = Link(active: int, closing: bool, flows: set<Side>, splices: int)

  datatype Net = Net(active: int, links: seq<Link>)

  const NEW_LINK := Link(0, false, {}, 0)

  function Put(n: Net, i: nat, l: Link): Net
    requires i < |n.links|
  {
    n.(links := n.links[i := l])
  }

  predicate HasRoom(n: Net, i: nat)
    requires i < |n.links|
  {
    !n.links[i].closing && n.links[i].active < MAX_LINK_FLOWS && n.active < MAX_STACK_FLOWS
  }

  /** One more flow, of the link and of the stack. */
  function Admitted(n: Net, i: nat): Net
    requires i < |n.links|
  {
    if !HasRoom(n, i) then n
    else Put(n, i, n.links[i].(active := n.links[i].active + 1)).(active := n.active + 1)
  }

  function Released(n: Net, i: nat): Net
    requires i < |n.links|
  {
    Put(n, i, n.links[i].(active := n.links[i].active - 1)).(active := n.active - 1)
  }

  /** A link that is closing takes no splice. */
  function Tracked(n: Net, i: nat, f: nat): Net
    requires i < |n.links|
  {
    var l := n.links[i];
    if l.closing then n
    else Put(n, i, l.(flows := l.flows + {Side(f, false), Side(f, true)}, splices := l.splices + 1))
  }

  function Untracked(n: Net, i: nat, f: nat): Net
    requires i < |n.links|
  {
    var l := n.links[i];
    Put(n, i, l.(flows := l.flows - {Side(f, false), Side(f, true)}, splices := l.splices - 1))
  }

  /** How a flow's way through the stack ends before it is spliced, if it does. */
  datatype Trouble = NoTrouble | NoDial | NoEndpoint

  class Stack {
    var active: int
    var links: seq<Link>
    /** The sides the stack itself closed. */
    var shut: set<Side>
    /** The flows that were spliced, each as its splice started. */
    ghost var spliced: seq<nat>

    ghost function Value(): Net
      reads this
    {
      Net(active, links)
    }

    method Admit(i: nat) returns (ok: bool)
      requires i < |links|
      modifies this`active, this`links
      ensures ok <==> HasRoom(old(Value()), i)
      ensures Value() == Admitted(old(Value()), i) && |links| == |old(links)|
      ensures ok <==> !old(links[i]).closing && old(links[i]).active < 1024 && old(active) < 4096
      ensures active == old(active) + (if ok then 1 else 0)
      ensures links == old(links)[i := old(links[i]).(active := old(links[i]).active + if ok then 1 else 0)]
    {
      var l := links[i];
      if l.closing || l.active >= MAX_LINK_FLOWS || active >= MAX_STACK_FLOWS {
        return false;
      }
      links := links[i := l.(active := l.active + 1)];
      active := active + 1;
      return true;
    }

    method Release(i: nat)
      requires i < |links|
      modifies this`active, this`links
      ensures Value() == Released(old(Value()), i) && |links| == |old(links)|
      ensures active == old(active) - 1 && links == old(links)[i := old(links[i]).(active := old(links[i]).active - 1)]
    {
      links := links[i := links[i].(active := links[i].active - 1)];
      active := active - 1;
    }

    /** A link already closing takes none and ends the sides here. */
    method Track(i: nat, f: nat) returns (ok: bool)
      requires i < |links|
      modifies this`links, this`shut, this`spliced
      ensures ok <==> !old(links[i].closing)
      ensures spliced == if ok then old(spliced) + [f] else old(spliced)
      ensures !ok ==> links == old(links)
      ensures ok ==>
                var l := old(links[i]);
                links == old(links)[i :=
                                      l.(flows := l.flows + {Side(f, false), Side(f, true)}, splices := l.splices + 1)]
      ensures Value() == Tracked(old(Value()), i, f) && |links| == |old(links)|
      ensures shut == if ok then old(shut) else old(shut) + {Side(f, false), Side(f, true)}
    {
      var l := links[i];
      if l.closing {
        shut := shut + {Side(f, false), Side(f, true)};
        return false;
      }
      links := links[i := l.(flows := l.flows + {Side(f, false), Side(f, true)}, splices := l.splices + 1)];
      spliced := spliced + [f];
      return true;
    }

    method Untrack(i: nat, f: nat)
      requires i < |links|
      modifies this`links
      ensures Value() == Untracked(old(Value()), i, f) && |links| == |old(links)|
      ensures var l := old(links[i]);
              links == old(links)[i := l.(flows := l.flows - {Side(f, false), Side(f, true)}, splices := l.splices - 1)]
    {
      var l := links[i];
      links := links[i := l.(flows := l.flows - {Side(f, false), Side(f, true)}, splices := l.splices - 1)];
    }

    /** A flow with both its sides, to its end: spliced, or ended at once by a link that is closing. Either way it gives
        back the one share it took and leaves no side tracked. */
    method Carry(i: nat, f: nat)
      requires i < |links| && Side(f, false) !in links[i].flows && Side(f, true) !in links[i].flows
      modifies this
      ensures Value() == Released(old(Value()), i) && |links| == |old(links)|
      ensures if old(links[i].closing) then spliced == old(spliced) && {Side(f, false), Side(f, true)} <= shut
              else spliced == old(spliced) + [f] && shut == old(shut)
    {
      var ok := Track(i, f);
      if ok {
        // The two halves copy until both sides end.
        TrackUndone(Net(active, links), old(Value()), i, f);
        Untrack(i, f);
      }
      Release(i);
    }

    /** An admitted TCP flow: the host is dialed before the guest is answered. */
    method SpliceTcp(i: nat, f: nat, trouble: Trouble)
      requires i < |links| && Side(f, false) !in links[i].flows && Side(f, true) !in links[i].flows
      modifies this
      ensures Value() == Released(old(Value()), i) && |links| == |old(links)|
      ensures spliced == if trouble.NoTrouble? && !old(links[i].closing) then old(spliced) + [f] else old(spliced)
    {
      if trouble.NoTrouble? {
        Carry(i, f);
      } else {
        Release(i);
      }
    }

    method SpliceUdp(i: nat, f: nat, dialed: bool)
      requires i < |links| && Side(f, false) !in links[i].flows && Side(f, true) !in links[i].flows
      modifies this
      ensures Value() == Released(old(Value()), i) && |links| == |old(links)|
      ensures spliced == if dialed && !old(links[i].closing) then old(spliced) + [f] else old(spliced)
    {
      if dialed {
        Carry(i, f);
      } else {
        Release(i);
      }
    }

    /** A SYN the judge or a redirect refuses, one with no room, or a flow to its end: every count is as before. */
    method ForwardTcp(i: nat, f: nat, redirected: bool, allowed: bool, trouble: Trouble) returns (admitted: bool)
      requires i < |links| && Side(f, false) !in links[i].flows && Side(f, true) !in links[i].flows
      modifies this
      ensures Value() == old(Value())
      ensures admitted <==> !redirected && allowed && HasRoom(old(Value()), i)
      ensures spliced == if admitted && trouble.NoTrouble? then old(spliced) + [f] else old(spliced)
    {
      if redirected || !allowed {
        return false;
      }
      admitted := Admit(i);
      if admitted {
        GivenBack(old(Value()), i);
        SpliceTcp(i, f, trouble);
      }
    }

    /** The first datagram of a UDP flow: here the guest's side is made before the splice starts. */
    method ForwardUdp(i: nat, f: nat, allowed: bool, trouble: Trouble) returns (admitted: bool)
      requires i < |links| && Side(f, false) !in links[i].flows && Side(f, true) !in links[i].flows
      modifies this
      ensures Value() == old(Value())
      ensures admitted <==> allowed && HasRoom(old(Value()), i)
      ensures spliced == if admitted && trouble.NoTrouble? then old(spliced) + [f] else old(spliced)
    {
      if !allowed {
        return false;
      }
      admitted := Admit(i);
      if !admitted {
        return false;
      }
      GivenBack(old(Value()), i);
      if trouble.NoEndpoint? {
        Release(i);
        return true;
      }
      SpliceUdp(i, f, !trouble.NoDial?);
    }

    /** The link takes no flow any more; says the sides its close is to end, which are all it tracks. */
    method BeginClose(i: nat) returns (conns: set<Side>)
      requires i < |links|
      modifies this`links
      ensures Value() == Put(old(Value()), i, old(links[i]).(closing := true)) && conns == old(links[i].flows)
      ensures links == old(links)[i := old(links[i]).(closing := true)]
    {
      links := links[i := links[i].(closing := true)];
      conns := {};
      var left := links[i].flows;
      while left != {}
        invariant left <= links[i].flows && conns + left == links[i].flows && conns !! left
        decreases left
      {
        var c :| c in left;
        conns, left := conns + {c}, left - {c};
      }
    }
  }

  /** A flow a listener accepted, which gives back its share on the first close and on no later one. */
  class Served {
    const link: nat
    var closed: bool

    method Close(s: Stack)
      requires link < |s.links|
      modifies this, s
      ensures closed
      ensures s.Value() == if old(closed) then old(s.Value()) else Released(old(s.Value()), link)
    {
      if !closed {
        closed := true;
        s.Release(link);
      }
    }
  }

  /** Untracking what was just tracked leaves the link as it was. */
  lemma TrackUndone(t: Net, n: Net, i: nat, f: nat)
    requires i < |n.links| && t == Tracked(n, i, f) && !n.links[i].closing
    requires Side(f, false) !in n.links[i].flows && Side(f, true) !in n.links[i].flows
    ensures Untracked(t, i, f) == n
  {
    var l := n.links[i];
    assert l.flows + {Side(f, false), Side(f, true)} - {Side(f, false), Side(f, true)} == l.flows;
    assert Untracked(t, i, f).links == n.links;
  }

  /** Releasing what was just admitted leaves every count as it was. */
  lemma GivenBack(n: Net, i: nat)
    requires i < |n.links| && HasRoom(n, i)
    ensures Released(Admitted(n, i), i) == n && |Admitted(n, i).links| == |n.links|
    ensures Admitted(n, i).links[i].closing == n.links[i].closing && Admitted(n, i).links[i].flows == n.links[i].flows
  {
    assert Released(Admitted(n, i), i).links == n.links;
  }
}
