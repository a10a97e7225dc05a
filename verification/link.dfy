/** The network link monitor of src/core_embedded/network.rs: link messages
    from the kernel are reduced to an interface name and an "active" flag,
    names are remembered per interface index, and the two managed
    interfaces, `eth0` and `usb0`, drive a status-bar icon. A display that
    is present is recorded by the icon actions sent to it; spawning the
    internet/update check is recorded by a count. The netlink connection,
    the display lock and the check itself are outside the model. */
module Link {
  import opened Common

  datatype LinkAttribute = IfName(name: string) | OtherAttribute

  /** A link message: interface index, `ifi_flags` and attributes. */
  datatype LinkMessage = LinkMessage(index: U32, flags: bv32, attributes: seq<LinkAttribute>)

  /** A message of the route-netlink stream: a new-link message or anything
      else. */
  datatype RouteEvent = NewLink(msg: LinkMessage) | OtherEvent

  datatype Icon = Usb | Ethernet

  datatype IconAction = Draw(icon: Icon) | Clear(icon: Icon)

  /** The name carried by the first `IfName` attribute. */
  function FirstName(attributes: seq<LinkAttribute>): (r: Option<string>)
    ensures r.None? <==> forall k :: 0 <= k < |attributes| ==> !attributes[k].IfName?
    ensures r.Some? ==>
              exists k :: 0 <= k < |attributes| && attributes[k] == IfName(r.value)
                       && forall j :: 0 <= j < k ==> !attributes[j].IfName?
    decreases |attributes|
  {
    if |attributes| == 0 then None
    else if attributes[0].IfName? then Some(attributes[0].name)
    else
      assert forall k :: 1 <= k < |attributes| ==> attributes[k] == attributes[1..][k - 1];
      FirstName(attributes[1..])
  }

  /** `extract_link_info`: the name and whether the link is administratively
      up (IFF_UP) and has a carrier (IFF_LOWER_UP). */
  function ExtractLinkInfo(msg: LinkMessage): (r: (Option<string>, bool))
    ensures r.0 == FirstName(msg.attributes)
    ensures r.1 <==> (msg.flags >> 0) & 1 == 1 && (msg.flags >> 16) & 1 == 1
  {
    var flags := msg.flags;
    var isUp := flags & 1 != 0;
    var isLowerUp := flags & 0x10000 != 0;
    (FirstName(msg.attributes), isUp && isLowerUp)
  }

  /** `update_link_status`: the icon action for a link state, none for an
      interface other than `eth0` and `usb0`. */
  function StatusAction(name: string, isUp: bool): (r: Option<IconAction>)
    ensures r.None? <==> name != "eth0" && name != "usb0"
    ensures r.Some? ==> r.value.icon == (if name == "usb0" then Usb else Ethernet)
    ensures r.Some? ==> (r.value.Draw? <==> isUp)
  {
    if name != "eth0" && name != "usb0" then None
    else
      var icon := if name == "usb0" then Usb else Ethernet;
      if !isUp then Some(Clear(icon)) else Some(Draw(icon))
  }

  /** The update check is spawned for an active `eth0` only. */
  predicate SpawnsCheck(name: string, isUp: bool)
  {
    name == "eth0" && isUp
  }

  function Lookup(m: map<U32, string>, index: U32): Option<string>
  {
    if index in m then Some(m[index]) else None
  }

  /** The cache after a message of the initial scan; `None` is a message
      the scan failed to read. */
  function Remember(m: map<U32, string>, msg: Option<LinkMessage>): map<U32, string>
  {
    if msg.Some? && FirstName(msg.value.attributes).Some? then
      m[msg.value.index := FirstName(msg.value.attributes).value]
    else m
  }

  /** The cache after a sequence of messages. */
  function Scan(m: map<U32, string>, msgs: seq<Option<LinkMessage>>): map<U32, string>
  {
    if |msgs| == 0 then m else Remember(Scan(m, msgs[..|msgs| - 1]), msgs[|msgs| - 1])
  }

  /** The name a scanned message carries for interface `index`, if any. */
  function NameFor(msg: Option<LinkMessage>, index: U32): Option<string>
  {
    if msg.Some? && msg.value.index == index then FirstName(msg.value.attributes) else None
  }

  /** The position of the last message about `index` that carries a name,
      -1 when there is none. */
  function LastNamed(msgs: seq<Option<LinkMessage>>, index: U32): (p: int)
    ensures -1 <= p < |msgs|
    ensures p >= 0 ==> NameFor(msgs[p], index).Some?
    ensures forall j :: p < j < |msgs| ==> NameFor(msgs[j], index).None?
  {
    if |msgs| == 0 then -1
    else if NameFor(msgs[|msgs| - 1], index).Some? then |msgs| - 1
    else
      var init := msgs[..|msgs| - 1];
      var p := LastNamed(init, index);
      assert forall j :: p < j < |init| ==> NameFor(msgs[j], index) == NameFor(init[j], index);
      p
  }

  /** The name carried by the last message about `index` that carries one. */
  function LastName(msgs: seq<Option<LinkMessage>>, index: U32): (r: Option<string>)
    ensures r.None? <==> forall k :: 0 <= k < |msgs| ==> NameFor(msgs[k], index).None?
  {
    var p := LastNamed(msgs, index);
    if p < 0 then None else NameFor(msgs[p], index)
  }

  /** The cache holds, for each index, the name of the last message about
      it that carried one, and otherwise what it held before. */
  lemma {:induction false} ScanLastNameWins(m: map<U32, string>, msgs: seq<Option<LinkMessage>>, index: U32)
    ensures Lookup(Scan(m, msgs), index)
              == (if LastName(msgs, index).Some? then LastName(msgs, index) else Lookup(m, index))
  {
    if |msgs| > 0 {
      var init := msgs[..|msgs| - 1];
      ScanLastNameWins(m, init, index);
      var p := LastNamed(init, index);
      if p >= 0 {
        assert msgs[p] == init[p];
      }
    }
  }

  /** The icon actions of the initial scan. */
  function ScanIcons(hasDisplay: bool, msgs: seq<Option<LinkMessage>>): seq<IconAction>
  {
    if |msgs| == 0 then []
    else ScanIcons(hasDisplay, msgs[..|msgs| - 1]) + InitialIcons(hasDisplay, msgs[|msgs| - 1])
  }

  /** The icon action of one message of the initial scan. */
  function InitialIcons(hasDisplay: bool, msg: Option<LinkMessage>): seq<IconAction>
  {
    if msg.Some? then
      var (name, isUp) := ExtractLinkInfo(msg.value);
      if name.Some? then Icons(hasDisplay, name.value, isUp) else []
    else []
  }

  /** What `update_link_status` sends to the display. */
  function Icons(hasDisplay: bool, name: string, isUp: bool): seq<IconAction>
  {
    var a := StatusAction(name, isUp);
    if hasDisplay && a.Some? then [a.value] else []
  }

  /** The number of update checks the initial scan spawns. */
  function ScanChecks(msgs: seq<Option<LinkMessage>>): nat
  {
    if |msgs| == 0 then 0
    else
      var msg := msgs[|msgs| - 1];
      var spawn := msg.Some? && FirstName(msg.value.attributes).Some?
                   && SpawnsCheck(FirstName(msg.value.attributes).value, ExtractLinkInfo(msg.value).1);
      ScanChecks(msgs[..|msgs| - 1]) + (if spawn then 1 else 0)
  }

  /** Only scanned messages that name an active `eth0` spawn a check. */
  lemma {:induction false} ScanChecksCountEth0(msgs: seq<Option<LinkMessage>>)
    ensures ScanChecks(msgs) <= |msgs|
    ensures ScanChecks(msgs) > 0 ==>
              exists k :: 0 <= k < |msgs| && msgs[k].Some? && FirstName(msgs[k].value.attributes) == Some("eth0")
                       && ExtractLinkInfo(msgs[k].value).1
  {
    if |msgs| > 0 {
      var init := msgs[..|msgs| - 1];
      ScanChecksCountEth0(init);
      if ScanChecks(init) > 0 {
        var k :| 0 <= k < |init| && init[k].Some? && FirstName(init[k].value.attributes) == Some("eth0")
                 && ExtractLinkInfo(init[k].value).1;
        assert msgs[k] == init[k];
      }
    }
  }

  /** One more scanned message extends the cache, the icons and the count
      of checks by that message's share. */
  lemma ScanSnoc(hasDisplay: bool, m: map<U32, string>, msgs: seq<Option<LinkMessage>>, i: nat)
    requires i < |msgs|
    ensures Scan(m, msgs[..i + 1]) == Remember(Scan(m, msgs[..i]), msgs[i])
    ensures ScanIcons(hasDisplay, msgs[..i + 1]) == ScanIcons(hasDisplay, msgs[..i]) + InitialIcons(hasDisplay, msgs[i])
    ensures ScanChecks(msgs[..i + 1]) == ScanChecks(msgs[..i]) + ScanChecks([msgs[i]])
  {
    assert msgs[..i + 1][..i] == msgs[..i];
    assert [msgs[i]][..0] == [];
  }

  class InterfaceMonitor {
    const hasDisplay: bool
    /** `iface_map`: interface index to last known name. */
    var ifaceMap: map<U32, string>
    /** Icon actions sent to the display, in order. */
    var icons: seq<IconAction>
    /** Number of internet/update checks spawned. */
    var checks: nat

    constructor(hasDisplay: bool)
      ensures this.hasDisplay == hasDisplay && ifaceMap == map[] && icons == [] && checks == 0
    {
      this.hasDisplay := hasDisplay;
      ifaceMap := map[];
      icons := [];
      checks := 0;
    }

    /** What the monitor does for an interface `name` in state `isUp`: the
        check for an active `eth0`, then the icon. */
    method Report(name: string, isUp: bool)
      modifies this
      ensures ifaceMap == old(ifaceMap)
      ensures icons == old(icons) + Icons(hasDisplay, name, isUp)
      ensures checks == old(checks) + (if SpawnsCheck(name, isUp) then 1 else 0)
    {
      if name == "eth0" && isUp {
        checks := checks + 1;
      }
      var action := StatusAction(name, isUp);
      if hasDisplay && action.Some? {
        icons := icons + [action.value];
      }
    }

    /** One message of the initial scan: only a message carrying a name is
        remembered and reported; a read error is skipped. */
    method ScanOne(msg: Option<LinkMessage>)
      modifies this
      ensures ifaceMap == Remember(old(ifaceMap), msg)
      ensures icons == old(icons) + InitialIcons(hasDisplay, msg)
      ensures checks == old(checks) + ScanChecks([msg])
    {
      assert [msg][..0] == [];
      if msg.Some? {
        var (name, isUp) := ExtractLinkInfo(msg.value);
        if name.Some? {
          ifaceMap := ifaceMap[msg.value.index := name.value];
          Report(name.value, isUp);
        }
      }
    }

    /** The initial scan over the existing links. */
    method InitialScan(msgs: seq<Option<LinkMessage>>)
      modifies this
      ensures ifaceMap == Scan(old(ifaceMap), msgs)
      ensures icons == old(icons) + ScanIcons(hasDisplay, msgs)
      ensures checks == old(checks) + ScanChecks(msgs)
    {
      var i := 0;
      while i < |msgs|
        invariant 0 <= i <= |msgs|
        invariant ifaceMap == Scan(old(ifaceMap), msgs[..i])
        invariant icons == old(icons) + ScanIcons(hasDisplay, msgs[..i])
        invariant checks == old(checks) + ScanChecks(msgs[..i])
      {
        ScanSnoc(hasDisplay, old(ifaceMap), msgs, i);
        ScanOne(msgs[i]);
        i := i + 1;
      }
      assert msgs[..i] == msgs;
    }

    /** One message of the event loop: a new-link message carrying a name
        updates the cache and is reported under that name; one without a
        name is reported under the cached name of its index, and ignored
        when the index is unknown. Other messages are ignored. */
    method OnEvent(ev: RouteEvent)
      modifies this
      ensures ev.OtherEvent? ==> ifaceMap == old(ifaceMap) && icons == old(icons) && checks == old(checks)
      ensures ev.NewLink? ==>
                var (name, isUp) := ExtractLinkInfo(ev.msg);
                var used := if name.Some? then name else Lookup(old(ifaceMap), ev.msg.index);
                && ifaceMap == Remember(old(ifaceMap), Some(ev.msg))
                && icons == old(icons) + (if used.Some? then Icons(hasDisplay, used.value, isUp) else [])
                && checks == old(checks) + (if used.Some? && SpawnsCheck(used.value, isUp) then 1 else 0)
    {
      match ev {
        case OtherEvent =>
        case NewLink(msg) =>
          var (nameOpt, isUp) := ExtractLinkInfo(msg);
          var nameFinal: Option<string>;
          if nameOpt.Some? {
            ifaceMap := ifaceMap[msg.index := nameOpt.value];
            nameFinal := nameOpt;
          } else {
            nameFinal := if msg.index in ifaceMap then Some(ifaceMap[msg.index]) else None;
          }
          if nameFinal.Some? {
            Report(nameFinal.value, isUp);
          }
      }
    }
  }
}
