/** The interface bookkeeping of the peer-discovery manager
    (src/network_sync/discovery.rs): which local IPv4 addresses are known,
    on which of them the receiving socket has been asked to join the
    multicast group, and which send sockets exist. An interface listing is
    a parameter (`None` when enumerating the interfaces fails), and so is
    the outcome of each socket bind; sockets are recorded by the address
    they are bound to. */
module Discovery {
  import opened Common

  datatype IpAddr = V4(octets: bv32) | V6(bits: nat)

  /** One entry of the interface listing. */
  datatype Interface = Interface(addr: IpAddr, loopback: bool)

  /** A send socket: the one on the default route, or one bound to an
      interface address. */
  datatype SendSocket = DefaultRoute | BoundTo(addr: IpAddr)

  /** The address 0.0.0.0, on which `new` also joins the group. */
  const AnyAddr: IpAddr := V4(0)

  /** Only non-loopback IPv4 interfaces are used. */
  predicate Eligible(i: Interface)
  {
    !i.loopback && i.addr.V4?
  }

  /** The eligible addresses of a listing, in order and with repetitions. */
  function EligibleAddrs(ifaces: seq<Interface>): seq<IpAddr>
  {
    if |ifaces| == 0 then []
    else
      var last := ifaces[|ifaces| - 1];
      EligibleAddrs(ifaces[..|ifaces| - 1]) + (if Eligible(last) then [last.addr] else [])
  }

  /** The set of eligible addresses of a listing. */
  function Current(ifaces: seq<Interface>): set<IpAddr>
  {
    if |ifaces| == 0 then {}
    else
      var last := ifaces[|ifaces| - 1];
      Current(ifaces[..|ifaces| - 1]) + (if Eligible(last) then {last.addr} else {})
  }

  /** An address is current exactly when some eligible interface has it. */
  lemma {:induction false} CurrentIsEligible(ifaces: seq<Interface>, a: IpAddr)
    ensures a in Current(ifaces) <==> exists k :: 0 <= k < |ifaces| && Eligible(ifaces[k]) && ifaces[k].addr == a
  {
    if |ifaces| > 0 {
      var init := ifaces[..|ifaces| - 1];
      CurrentIsEligible(init, a);
      if a in Current(init) {
        var k :| 0 <= k < |init| && Eligible(init[k]) && init[k].addr == a;
        assert ifaces[k] == init[k];
      }
      if exists k :: 0 <= k < |ifaces| && Eligible(ifaces[k]) && ifaces[k].addr == a {
        var k :| 0 <= k < |ifaces| && Eligible(ifaces[k]) && ifaces[k].addr == a;
        if k < |init| {
          assert init[k] == ifaces[k];
        }
      }
    }
  }

  /** The sockets `new` binds, one per eligible interface whose bind
      succeeds; `bindOk[k]` is the outcome of binding to the k-th entry. */
  function AllBound(ifaces: seq<Interface>, bindOk: seq<bool>): seq<SendSocket>
    requires |bindOk| == |ifaces|
  {
    if |ifaces| == 0 then []
    else
      var n := |ifaces| - 1;
      AllBound(ifaces[..n], bindOk[..n]) + (if Eligible(ifaces[n]) && bindOk[n] then [BoundTo(ifaces[n].addr)] else [])
  }

  /** The k-th entry brings an address that neither `known` nor an earlier
      entry has. */
  predicate IsFresh(known: set<IpAddr>, ifaces: seq<Interface>, k: nat)
    requires k < |ifaces|
  {
    Eligible(ifaces[k]) && ifaces[k].addr !in known + Current(ifaces[..k])
  }

  /** The addresses `check_for_new_interfaces` adds to the known ones,
      starting from `known`, in the order of the listing. */
  function Fresh(known: set<IpAddr>, ifaces: seq<Interface>): seq<IpAddr>
  {
    if |ifaces| == 0 then []
    else
      var n := |ifaces| - 1;
      Fresh(known, ifaces[..n]) + (if IsFresh(known, ifaces, n) then [ifaces[n].addr] else [])
  }

  /** The send sockets bound for the fresh addresses. */
  function FreshBound(known: set<IpAddr>, ifaces: seq<Interface>, bindOk: seq<bool>): seq<SendSocket>
    requires |bindOk| == |ifaces|
  {
    if |ifaces| == 0 then []
    else
      var n := |ifaces| - 1;
      FreshBound(known, ifaces[..n], bindOk[..n])
        + (if IsFresh(known, ifaces, n) && bindOk[n] then [BoundTo(ifaces[n].addr)] else [])
  }

  /** The fresh addresses are the current addresses not already known, each
      listed once. */
  lemma {:induction false} FreshIsNewCurrent(known: set<IpAddr>, ifaces: seq<Interface>)
    ensures forall a :: a in Fresh(known, ifaces) <==> a in Current(ifaces) && a !in known
    ensures forall i, j :: 0 <= i < j < |Fresh(known, ifaces)| ==> Fresh(known, ifaces)[i] != Fresh(known, ifaces)[j]
  {
    if |ifaces| > 0 {
      var n := |ifaces| - 1;
      var init := ifaces[..n];
      FreshIsNewCurrent(known, init);
      assert ifaces[..n] == init;
    }
  }

  /** Every fresh-address socket is bound to a fresh address, in order: at
      most one socket per new address. */
  lemma {:induction false} FreshBoundWithinFresh(known: set<IpAddr>, ifaces: seq<Interface>, bindOk: seq<bool>)
    requires |bindOk| == |ifaces|
    ensures |FreshBound(known, ifaces, bindOk)| <= |Fresh(known, ifaces)|
    ensures forall s :: s in FreshBound(known, ifaces, bindOk) ==> s.BoundTo? && s.addr in Fresh(known, ifaces)
  {
    if |ifaces| > 0 {
      var n := |ifaces| - 1;
      FreshBoundWithinFresh(known, ifaces[..n], bindOk[..n]);
    }
  }

  /** The first loop of `check_for_new_interfaces`: the set of current
      addresses. */
  method CollectCurrent(ifaces: seq<Interface>) returns (current: set<IpAddr>)
    ensures current == Current(ifaces)
  {
    current := {};
    var i := 0;
    while i < |ifaces|
      invariant 0 <= i <= |ifaces|
      invariant current == Current(ifaces[..i])
    {
      assert ifaces[..i + 1][..i] == ifaces[..i];
      var iface := ifaces[i];
      if !iface.loopback && iface.addr.V4? {
        current := current + {iface.addr};
      }
      i := i + 1;
    }
    assert ifaces[..i] == ifaces;
  }

  /** The second loop of `check_for_new_interfaces`: every eligible address
      not yet known is added, joined on and given a send socket when the
      bind succeeds. */
  method AddNew(retained: set<IpAddr>, ifaces: seq<Interface>, bindOk: seq<bool>)
    returns (known: set<IpAddr>, joins: seq<IpAddr>, sockets: seq<SendSocket>)
    requires |bindOk| == |ifaces|
    ensures known == retained + Current(ifaces)
    ensures joins == Fresh(retained, ifaces)
    ensures sockets == FreshBound(retained, ifaces, bindOk)
  {
    known := retained;
    joins := [];
    sockets := [];
    var i := 0;
    while i < |ifaces|
      invariant 0 <= i <= |ifaces|
      invariant known == retained + Current(ifaces[..i])
      invariant joins == Fresh(retained, ifaces[..i])
      invariant sockets == FreshBound(retained, ifaces[..i], bindOk[..i])
    {
      var pre := ifaces[..i + 1];
      assert pre[..i] == ifaces[..i];
      assert bindOk[..i + 1][..i] == bindOk[..i];
      assert IsFresh(retained, pre, i) <==> IsFresh(retained, ifaces, i);
      var iface := ifaces[i];
      if !iface.loopback && iface.addr.V4? {
        if iface.addr !in known {
          known := known + {iface.addr};
          joins := joins + [iface.addr];
          if bindOk[i] {
            sockets := sockets + [BoundTo(iface.addr)];
          }
        }
      }
      i := i + 1;
    }
    assert ifaces[..i] == ifaces;
    assert bindOk[..i] == bindOk;
  }

  /** The per-interface loops of `new`: a join and a bind attempt for every
      eligible interface, repeated addresses included. */
  method JoinAndBindAll(ifaces: seq<Interface>, bindOk: seq<bool>)
    returns (known: set<IpAddr>, joins: seq<IpAddr>, sockets: seq<SendSocket>)
    requires |bindOk| == |ifaces|
    ensures known == Current(ifaces)
    ensures joins == EligibleAddrs(ifaces)
    ensures sockets == AllBound(ifaces, bindOk)
  {
    known := {};
    joins := [];
    sockets := [];
    var i := 0;
    while i < |ifaces|
      invariant 0 <= i <= |ifaces|
      invariant known == Current(ifaces[..i])
      invariant joins == EligibleAddrs(ifaces[..i])
      invariant sockets == AllBound(ifaces[..i], bindOk[..i])
    {
      assert ifaces[..i + 1][..i] == ifaces[..i];
      assert bindOk[..i + 1][..i] == bindOk[..i];
      var iface := ifaces[i];
      if !iface.loopback && iface.addr.V4? {
        joins := joins + [iface.addr];
        known := known + {iface.addr};
        if bindOk[i] {
          sockets := sockets + [BoundTo(iface.addr)];
        }
      }
      i := i + 1;
    }
    assert ifaces[..i] == ifaces;
    assert bindOk[..i] == bindOk;
  }

  class NetworkManager {
    /** `known_interfaces`. */
    var known: set<IpAddr>
    /** Addresses on which the receiving socket was asked to join the
        multicast group, in order. */
    var joined: seq<IpAddr>
    /** `send_sockets`. */
    var sockets: seq<SendSocket>

    /** The bookkeeping part of `new`: the receiving socket joins on every
        eligible address and then on 0.0.0.0; the default-route socket comes
        first when it binds; every eligible address is known, whether or not
        its own socket binds. */
    constructor(ifaces: Option<seq<Interface>>, defaultBinds: bool, bindOk: seq<bool>)
      requires ifaces.Some? ==> |bindOk| == |ifaces.value|
      ensures ifaces.None? ==>
                known == {} && joined == [AnyAddr] && sockets == (if defaultBinds then [DefaultRoute] else [])
      ensures ifaces.Some? ==>
                && known == Current(ifaces.value)
                && joined == EligibleAddrs(ifaces.value) + [AnyAddr]
                && sockets == (if defaultBinds then [DefaultRoute] else []) + AllBound(ifaces.value, bindOk)
    {
      var k: set<IpAddr> := {};
      var j: seq<IpAddr> := [];
      var s: seq<SendSocket> := [];
      if ifaces.Some? {
        k, j, s := JoinAndBindAll(ifaces.value, bindOk);
      }
      known := k;
      joined := j + [AnyAddr];
      sockets := (if defaultBinds then [DefaultRoute] else []) + s;
    }

    /** `check_for_new_interfaces`: when the listing is available, addresses
        that disappeared are forgotten and the new ones are added, joined on
        and bound; sockets are never removed. */
    method CheckForNewInterfaces(ifaces: Option<seq<Interface>>, bindOk: seq<bool>)
      requires ifaces.Some? ==> |bindOk| == |ifaces.value|
      modifies this
      ensures ifaces.None? ==> known == old(known) && joined == old(joined) && sockets == old(sockets)
      ensures ifaces.Some? ==>
                var retained := old(known) * Current(ifaces.value);
                && known == Current(ifaces.value)
                && joined == old(joined) + Fresh(retained, ifaces.value)
                && sockets == old(sockets) + FreshBound(retained, ifaces.value, bindOk)
    {
      if ifaces.Some? {
        var current := CollectCurrent(ifaces.value);
        var retained := known * current;
        var k, j, s := AddNew(retained, ifaces.value, bindOk);
        known := k;
        joined := joined + j;
        sockets := sockets + s;
      }
    }
  }

  /** `NetworkManager::new` with its `?` exits: `mainSocketOk` is false when
      creating, configuring (address and port reuse, multicast loop),
      binding or cloning the main receiving socket fails, and then no
      manager is returned; otherwise the manager is the one the constructor
      builds. */
  method New(mainSocketOk: bool, ifaces: Option<seq<Interface>>, defaultBinds: bool, bindOk: seq<bool>)
    returns (r: Option<NetworkManager>)
    requires ifaces.Some? ==> |bindOk| == |ifaces.value|
    ensures r.None? <==> !mainSocketOk
    ensures r.Some? ==> fresh(r.value)
    ensures r.Some? && ifaces.None? ==>
              r.value.known == {} && r.value.joined == [AnyAddr]
              && r.value.sockets == (if defaultBinds then [DefaultRoute] else [])
    ensures r.Some? && ifaces.Some? ==>
              && r.value.known == Current(ifaces.value)
              && r.value.joined == EligibleAddrs(ifaces.value) + [AnyAddr]
              && r.value.sockets == (if defaultBinds then [DefaultRoute] else []) + AllBound(ifaces.value, bindOk)
  {
    if !mainSocketOk {
      return None;
    }
    var m := new NetworkManager(ifaces, defaultBinds, bindOk);
    r := Some(m);
  }

  /** After a check, the newly joined addresses are exactly the current ones
      that were not known before, each once. */
  lemma CheckJoinsExactlyNew(oldKnown: set<IpAddr>, ifaces: seq<Interface>)
    ensures var added := Fresh(oldKnown * Current(ifaces), ifaces);
            && (forall a :: a in added <==> a in Current(ifaces) && a !in oldKnown)
            && (forall i, j :: 0 <= i < j < |added| ==> added[i] != added[j])
  {
    FreshIsNewCurrent(oldKnown * Current(ifaces), ifaces);
  }
}
