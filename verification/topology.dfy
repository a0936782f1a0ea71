/**
 * The spine-leaf fabric built by examples/rtt-variations/large-scale.cc:
 * the AQM selection, and the construction loops that connect servers to
 * leaves and leaves to spines, install one root queue disc per link endpoint
 * and hand out one subnet per leaf and one per leaf-spine link.
 */
module Topology {
  import opened Optional
  import opened Net

  /** The two active queue managements a switch port can run. */
  datatype Aqm = TCN | ECNSharp

  /** The command-line spelling of each AQM. */
  function AqmName(aqm: Aqm): string
  {
    match aqm
    case TCN => "TCN"
    case ECNSharp => "ECNSharp"
  }

  /**
   * The `AQM` option: exactly the two names are accepted, each to the AQM it
   * spells; any other string yields None (the driver then returns before
   * building anything).
   */
  function AqmFromName(name: string): (r: Option<Aqm>)
    ensures r.Some? <==> name == "TCN" || name == "ECNSharp"
    ensures r.Some? ==> AqmName(r.value) == name
  {
    if name == "TCN" then Some(TCN)
    else if name == "ECNSharp" then Some(ECNSharp)
    else None
  }

  /** Parsing the spelling of an AQM gives that AQM back. */
  lemma AqmNameRoundTrip(aqm: Aqm)
    ensures AqmFromName(AqmName(aqm)) == Some(aqm)
  {
  }

  datatype Role = Server | Leaf | Spine

  /** A node: its container (`servers`, `leaves`, `spines`) and its index there. */
  datatype Node = Node(role: Role, index: nat)

  /** One class of a DelayQueueDisc: the band and the delay it adds, in microseconds. */
  datatype DelayClass = DelayClass(band: nat, delayMicros: nat)

  datatype QueueKind = DelayQueueDisc(classes: seq<DelayClass>) | TCNQueueDisc | ECNSharpQueueDisc

  /** A queue-disc instance: the number of queue discs created before it, and its kind. */
  datatype QueueDisc = QueueDisc(id: nat, kind: QueueKind)

  /** One side of a point-to-point link: the node, its root queue disc and its interface address. */
  datatype Endpoint = Endpoint(node: Node, queue: QueueDisc, addr: Ipv4Address)

  /** A point-to-point link; `end0` is the first node of the installing container. */
  datatype Link = Link(end0: Endpoint, end1: Endpoint)

  /** The delay classes of every server-side queue disc. */
  const HostDelayClasses: seq<DelayClass> :=
    [DelayClass(0, 1), DelayClass(1, 20), DelayClass(2, 50), DelayClass(3, 80), DelayClass(4, 160)]

  /** The queue disc a switch port gets under `aqm`. */
  function SwitchQueueKind(aqm: Aqm): QueueKind
  {
    match aqm
    case TCN => TCNQueueDisc
    case ECNSharp => ECNSharpQueueDisc
  }

  /**
   * Link number `k`, between server `k` and leaf `leaf`, in slot `slot` of
   * that leaf's subnet: the server side gets a delay queue disc, the leaf
   * side a switch queue disc, and the two take the next two host addresses.
   */
  function ServerLink(k: nat, leaf: nat, slot: nat, aqm: Aqm): Link
  {
    Link(Endpoint(Node(Server, k), QueueDisc(2 * k, DelayQueueDisc(HostDelayClasses)),
                  Ipv4Address(leaf + 1, 2 * slot + 1)),
         Endpoint(Node(Leaf, leaf), QueueDisc(2 * k + 1, SwitchQueueKind(aqm)),
                  Ipv4Address(leaf + 1, 2 * slot + 2)))
  }

  /** The `h` links of leaf `leaf`, the first being link number `k0`. */
  function ServerRow(leaf: nat, h: nat, aqm: Aqm, k0: nat): seq<Link>
  {
    seq(h, j requires 0 <= j < h => ServerLink(k0 + j, leaf, j, aqm))
  }

  /** The server links of the first `n` leaves, `h` servers each, leaf by leaf. */
  function ServerLinks(n: nat, h: nat, aqm: Aqm): seq<Link>
  {
    if n == 0 then []
    else
      var done := ServerLinks(n - 1, h, aqm);
      done + ServerRow(n - 1, h, aqm, |done|)
  }

  /**
   * Link number `k`, on network `net`, from leaf `leaf` to spine `spine`:
   * each side gets its own switch queue disc, hosts 1 and 2 of the network.
   */
  function Uplink(k: nat, net: nat, leaf: nat, spine: nat, aqm: Aqm): Link
  {
    Link(Endpoint(Node(Leaf, leaf), QueueDisc(2 * k, SwitchQueueKind(aqm)), Ipv4Address(net, 1)),
         Endpoint(Node(Spine, spine), QueueDisc(2 * k + 1, SwitchQueueKind(aqm)), Ipv4Address(net, 2)))
  }

  /** The `c` parallel links from leaf to spine; link `k0 + l` is on network `net0 + l + 1`. */
  function ParallelLinks(leaf: nat, spine: nat, c: nat, aqm: Aqm, k0: nat, net0: nat): seq<Link>
  {
    seq(c, l requires 0 <= l < c => Uplink(k0 + l, net0 + l + 1, leaf, spine, aqm))
  }

  /** The links from one leaf to the first `s` spines, spine by spine. */
  function LeafUplinks(leaf: nat, s: nat, c: nat, aqm: Aqm, k0: nat, net0: nat): seq<Link>
  {
    if s == 0 then []
    else
      var done: seq<Link> := LeafUplinks(leaf, s - 1, c, aqm, k0, net0);
      done + ParallelLinks(leaf, s - 1, c, aqm, k0 + |done|, net0 + |done|)
  }

  /** The leaf-spine links of the first `n` leaves, leaf by leaf. */
  function Uplinks(n: nat, s: nat, c: nat, aqm: Aqm, k0: nat, net0: nat): seq<Link>
  {
    if n == 0 then []
    else
      var done := Uplinks(n - 1, s, c, aqm, k0, net0);
      done + LeafUplinks(n - 1, s, c, aqm, k0 + |done|, net0 + |done|)
  }

  /** One more leaf's links extend the leaf-spine links of the leaves before it. */
  lemma UplinksStep(before: seq<Link>, mid: seq<Link>, after: seq<Link>,
                    n: nat, s: nat, c: nat, aqm: Aqm, net0: nat, netMid: nat)
    requires mid == before + Uplinks(n, s, c, aqm, |before|, net0)
    requires netMid + |before| == net0 + |mid|
    requires after == mid + LeafUplinks(n, s, c, aqm, |mid|, netMid)
    ensures after == before + Uplinks(n + 1, s, c, aqm, |before|, net0)
  {
    var done := Uplinks(n, s, c, aqm, |before|, net0);
    assert |mid| == |before| + |done| && netMid == net0 + |done|;
  }

  /**
   * Link `k` of the fabric is a server link of one of `n` leaves with `h`
   * servers each: server k is attached to the leaf whose block of `h` server
   * indices holds k, on that leaf's subnet, in slot k - leaf * h; the server
   * side has queue disc 2k, a DelayQueueDisc, the leaf side queue disc 2k + 1
   * of the switch kind.
   */
  ghost predicate IsServerLink(l: Link, k: nat, n: nat, h: nat, aqm: Aqm)
  {
    var leaf := l.end1.node.index;
    && l.end0.node == Node(Server, k)
    && l.end1.node.role == Leaf && leaf < n
    && leaf * h <= k < leaf * h + h
    && l.end0.queue == QueueDisc(2 * k, DelayQueueDisc(HostDelayClasses))
    && l.end1.queue == QueueDisc(2 * k + 1, SwitchQueueKind(aqm))
    && l.end0.addr == Ipv4Address(leaf + 1, 2 * (k - leaf * h) + 1)
    && l.end1.addr == Ipv4Address(leaf + 1, 2 * (k - leaf * h) + 2)
  }

  /**
   * Link `k` of the fabric, at position `pos` among the leaf-spine links, is
   * on its own network `net`: from one of `n` leaves to one of `s` spines,
   * inside the block of `c` positions of its (leaf, spine) pair, both sides
   * with a switch queue disc of their own (2k and 2k + 1).
   */
  ghost predicate IsUplink(l: Link, k: nat, pos: nat, net: nat, n: nat, s: nat, c: nat, aqm: Aqm)
  {
    var leaf := l.end0.node.index;
    var spine := l.end1.node.index;
    && l.end0.node.role == Leaf && leaf < n
    && l.end1.node.role == Spine && spine < s
    && leaf * (s * c) + spine * c <= pos < leaf * (s * c) + spine * c + c
    && l.end0.queue == QueueDisc(2 * k, SwitchQueueKind(aqm))
    && l.end1.queue == QueueDisc(2 * k + 1, SwitchQueueKind(aqm))
    && l.end0.addr == Ipv4Address(net, 1)
    && l.end1.addr == Ipv4Address(net, 2)
  }

  /** One more row of m: (n - 1) * m + m == n * m. */
  lemma MulSucc(n: nat, m: nat)
    requires n > 0
    ensures (n - 1) * m + m == n * m
  {
  }

  lemma {:induction false} MulMono(a: nat, b: nat, h: nat)
    requires a <= b
    ensures a * h <= b * h
  {
    if a < b {
      MulMono(a, b - 1, h);
      assert b * h == (b - 1) * h + h;
    }
  }

  /** The row of leaf `leaf`, starting at link leaf * h, consists of server links of that leaf. */
  lemma ServerRowShape(leaf: nat, n: nat, h: nat, aqm: Aqm, k0: nat)
    requires leaf < n && k0 == leaf * h
    ensures forall j :: 0 <= j < h ==> IsServerLink(ServerRow(leaf, h, aqm, k0)[j], k0 + j, n, h, aqm)
  {
    forall j | 0 <= j < h
      ensures IsServerLink(ServerRow(leaf, h, aqm, k0)[j], k0 + j, n, h, aqm)
    {
      var l := ServerRow(leaf, h, aqm, k0)[j];
      assert l == ServerLink(k0 + j, leaf, j, aqm);
      assert l.end1.node.index == leaf;
      assert k0 + j - leaf * h == j;
    }
  }

  /** The server links: `n * h` of them, link k attaching server k to its leaf as IsServerLink says. */
  lemma {:induction false} ServerLinksShape(n: nat, h: nat, aqm: Aqm)
    ensures |ServerLinks(n, h, aqm)| == n * h
    ensures forall k :: 0 <= k < |ServerLinks(n, h, aqm)| ==> IsServerLink(ServerLinks(n, h, aqm)[k], k, n, h, aqm)
  {
    if n > 0 {
      var done := ServerLinks(n - 1, h, aqm);
      var row := ServerRow(n - 1, h, aqm, |done|);
      ServerLinksShape(n - 1, h, aqm);
      MulSucc(n, h);
      ServerRowShape(n - 1, n, h, aqm, |done|);
      forall k | 0 <= k < |done + row|
        ensures IsServerLink((done + row)[k], k, n, h, aqm)
      {
        if k < |done| {
          assert (done + row)[k] == done[k];
        } else {
          assert (done + row)[k] == row[k - |done|];
        }
      }
    }
  }

  /** Server i * h + j is attached to leaf i, in slot j: the construction loop's `serverIndex`. */
  lemma {:induction false} ServerLinkAt(n: nat, h: nat, aqm: Aqm, i: nat, j: nat)
    requires i < n && j < h
    ensures i * h + j < |ServerLinks(n, h, aqm)|
    ensures ServerLinks(n, h, aqm)[i * h + j] == ServerLink(i * h + j, i, j, aqm)
  {
    ServerLinksShape(n, h, aqm);
    MulMono(i + 1, n, h);
    assert (i + 1) * h == i * h + h;
    if i < n - 1 {
      ServerLinkAt(n - 1, h, aqm, i, j);
      ServerLinksShape(n - 1, h, aqm);
      MulMono(i + 1, n - 1, h);
    } else {
      ServerLinksShape(n - 1, h, aqm);
    }
  }

  lemma {:induction false} LeafUplinksCount(leaf: nat, s: nat, c: nat, aqm: Aqm, k0: nat, net0: nat)
    ensures |LeafUplinks(leaf, s, c, aqm, k0, net0)| == s * c
  {
    if s > 0 {
      LeafUplinksCount(leaf, s - 1, c, aqm, k0, net0);
      MulSucc(s, c);
    }
  }

  lemma {:induction false} UplinksCount(n: nat, s: nat, c: nat, aqm: Aqm, k0: nat, net0: nat)
    ensures |Uplinks(n, s, c, aqm, k0, net0)| == n * (s * c)
  {
    if n > 0 {
      var done := Uplinks(n - 1, s, c, aqm, k0, net0);
      UplinksCount(n - 1, s, c, aqm, k0, net0);
      LeafUplinksCount(n - 1, s, c, aqm, k0 + |done|, net0 + |done|);
      MulSucc(n, s * c);
    }
  }

  /**
   * The links of one leaf: `s * c` of them, link m going to the spine whose
   * block of `c` positions holds m, on network net0 + m + 1.
   */
  lemma {:induction false} LeafUplinksShape(leaf: nat, s: nat, c: nat, aqm: Aqm, k0: nat, net0: nat)
    ensures |LeafUplinks(leaf, s, c, aqm, k0, net0)| == s * c
    ensures forall m :: 0 <= m < |LeafUplinks(leaf, s, c, aqm, k0, net0)| ==>
      var l := LeafUplinks(leaf, s, c, aqm, k0, net0)[m];
      && l == Uplink(k0 + m, net0 + m + 1, leaf, l.end1.node.index, aqm)
      && l.end1.node.index < s
      && l.end1.node.index * c <= m < l.end1.node.index * c + c
  {
    if s > 0 {
      var done: seq<Link> := LeafUplinks(leaf, s - 1, c, aqm, k0, net0);
      var par: seq<Link> := ParallelLinks(leaf, s - 1, c, aqm, k0 + |done|, net0 + |done|);
      LeafUplinksShape(leaf, s - 1, c, aqm, k0, net0);
      MulSucc(s, c);
      forall m | 0 <= m < |done + par|
        ensures (done + par)[m] == Uplink(k0 + m, net0 + m + 1, leaf, (done + par)[m].end1.node.index, aqm)
        ensures (done + par)[m].end1.node.index < s
        ensures (done + par)[m].end1.node.index * c <= m < (done + par)[m].end1.node.index * c + c
      {
        if m < |done| {
          assert (done + par)[m] == done[m];
        } else {
          assert (done + par)[m] == par[m - |done|]
            == Uplink(k0 + m, net0 + m + 1, leaf, s - 1, aqm);
        }
      }
    }
  }

  /**
   * The links of leaf `leaf`, placed after the `base == leaf * (s * c)`
   * links of the leaves before it, starting at link k1 and network net1.
   */
  lemma LeafBlockShape(leaf: nat, n: nat, s: nat, c: nat, aqm: Aqm, k1: nat, net1: nat, base: nat)
    requires leaf < n && base == leaf * (s * c)
    ensures forall m :: 0 <= m < |LeafUplinks(leaf, s, c, aqm, k1, net1)| ==>
      IsUplink(LeafUplinks(leaf, s, c, aqm, k1, net1)[m], k1 + m, base + m, net1 + m + 1, n, s, c, aqm)
  {
    var links := LeafUplinks(leaf, s, c, aqm, k1, net1);
    LeafUplinksShape(leaf, s, c, aqm, k1, net1);
    forall m | 0 <= m < |links|
      ensures IsUplink(links[m], k1 + m, base + m, net1 + m + 1, n, s, c, aqm)
    {
      var spine := links[m].end1.node.index;
      assert spine * c <= m < spine * c + c;
      assert links[m].end0.node == Node(Leaf, leaf);
    }
  }

  /** The leaf-spine links: `n * (s * c)` of them, link m an uplink on network net0 + m + 1. */
  lemma {:induction false} UplinksShape(n: nat, s: nat, c: nat, aqm: Aqm, k0: nat, net0: nat)
    ensures |Uplinks(n, s, c, aqm, k0, net0)| == n * (s * c)
    ensures forall m :: 0 <= m < |Uplinks(n, s, c, aqm, k0, net0)| ==>
      IsUplink(Uplinks(n, s, c, aqm, k0, net0)[m], k0 + m, m, net0 + m + 1, n, s, c, aqm)
  {
    if n > 0 {
      var done := Uplinks(n - 1, s, c, aqm, k0, net0);
      var leafLinks := LeafUplinks(n - 1, s, c, aqm, k0 + |done|, net0 + |done|);
      UplinksShape(n - 1, s, c, aqm, k0, net0);
      LeafUplinksCount(n - 1, s, c, aqm, k0 + |done|, net0 + |done|);
      LeafBlockShape(n - 1, n, s, c, aqm, k0 + |done|, net0 + |done|, |done|);
      MulSucc(n, s * c);
      forall m | 0 <= m < |done + leafLinks|
        ensures IsUplink((done + leafLinks)[m], k0 + m, m, net0 + m + 1, n, s, c, aqm)
      {
        if m < |done| {
          assert (done + leafLinks)[m] == done[m];
        } else {
          assert (done + leafLinks)[m] == leafLinks[m - |done|];
        }
      }
    }
  }

  lemma {:induction false} ServerLinksCount(n: nat, h: nat, aqm: Aqm)
    ensures |ServerLinks(n, h, aqm)| == n * h
  {
    if n > 0 {
      ServerLinksCount(n - 1, h, aqm);
      MulSucc(n, h);
    }
  }

  /** The link endpoints in installation order: both ends of the first link, then of the second, ... */
  function Ends(links: seq<Link>): (r: seq<Endpoint>)
    ensures |r| == 2 * |links|
  {
    if links == [] then []
    else Ends(links[..|links| - 1]) + [links[|links| - 1].end0, links[|links| - 1].end1]
  }

  lemma EndsAppend(links: seq<Link>, l: Link)
    ensures Ends(links + [l]) == Ends(links) + [l.end0, l.end1]
  {
    assert (links + [l])[..|links|] == links;
  }

  /**
   * The construction state: the servers, leaves and spines, the links
   * installed so far, every queue disc created so far, the server-side
   * interface addresses, and the address helper's counters.
   */
  class Fabric {
    const spineCount: nat
    const leafCount: nat
    const serversPerLeaf: nat
    var links: seq<Link>
    /** Every queue disc created, in creation order. */
    var queueDiscs: seq<QueueDisc>
    /** serverInterfaceContainer: the server-side address of each server link. */
    var serverInterfaces: seq<Ipv4Address>
    /** Ipv4AddressHelper: the current network and the next host number in it. */
    var network: nat
    var nextHost: nat

    /**
     * Queue discs are installed as they are created: the e-th endpoint holds
     * the e-th queue disc created, so every endpoint has exactly one and no
     * queue disc serves two endpoints.
     */
    ghost predicate Valid()
      reads this
    {
      && |queueDiscs| == |Ends(links)|
      && forall e :: 0 <= e < |queueDiscs| ==> queueDiscs[e].id == e && Ends(links)[e].queue == queueDiscs[e]
    }

    /**
     * The node containers (`spines`, `leaves`, and `servers` with
     * serversPerLeaf servers per leaf) with nothing connected yet, and the
     * address helper set to its base network 10.1.0.0/24.
     */
    constructor (spineCount: nat, leafCount: nat, serversPerLeaf: nat)
      ensures Valid()
      ensures this.spineCount == spineCount && this.leafCount == leafCount && this.serversPerLeaf == serversPerLeaf
      ensures links == [] && queueDiscs == [] && serverInterfaces == []
      ensures network == 0 && nextHost == 1
    {
      this.spineCount := spineCount;
      this.leafCount := leafCount;
      this.serversPerLeaf := serversPerLeaf;
      links, queueDiscs, serverInterfaces := [], [], [];
      network, nextHost := 0, 1;
    }

    /** The number of servers created: serversPerLeaf under each leaf. */
    function ServerCount(): (n: nat)
      ensures leafCount > 0 ==> n >= serversPerLeaf
    {
      leafCount * serversPerLeaf
    }

    /** Ipv4AddressHelper::NewNetwork: the next network, counting hosts from 1 again. */
    method NewNetwork()
      modifies this`network, this`nextHost
      ensures network == old(network) + 1 && nextHost == 1
    {
      network := network + 1;
      nextHost := 1;
    }

    /** Ipv4AddressHelper::Assign on the two devices of a link: the next two hosts of the network. */
    method Assign() returns (a0: Ipv4Address, a1: Ipv4Address)
      modifies this`nextHost
      ensures a0 == Ipv4Address(network, old(nextHost)) && a1 == Ipv4Address(network, old(nextHost) + 1)
      ensures nextHost == old(nextHost) + 2
    {
      a0 := Ipv4Address(network, nextHost);
      a1 := Ipv4Address(network, nextHost + 1);
      nextHost := nextHost + 2;
    }

    /** A fresh queue disc of the given kind. */
    method CreateQueueDisc(kind: QueueKind) returns (q: QueueDisc)
      modifies this`queueDiscs
      ensures q == QueueDisc(|old(queueDiscs)|, kind) && queueDiscs == old(queueDiscs) + [q]
    {
      q := QueueDisc(|queueDiscs|, kind);
      queueDiscs := queueDiscs + [q];
    }

    /** Installs link `l`, whose two queue discs are the last two created. */
    method Install(l: Link)
      requires |queueDiscs| == |Ends(links)| + 2
      requires forall e :: 0 <= e < |Ends(links)| ==> queueDiscs[e].id == e && Ends(links)[e].queue == queueDiscs[e]
      requires queueDiscs[|queueDiscs| - 2] == l.end0.queue && queueDiscs[|queueDiscs| - 1] == l.end1.queue
      requires l.end0.queue.id == |queueDiscs| - 2 && l.end1.queue.id == |queueDiscs| - 1
      modifies this`links
      ensures Valid()
      ensures links == old(links) + [l]
    {
      EndsAppend(links, l);
      links := links + [l];
    }

    /** serverInterfaceContainer holds the server-side address of each of the first links, in order. */
    ghost predicate InterfacesMatch()
      reads this
    {
      && |serverInterfaces| <= |links|
      && forall k :: 0 <= k < |serverInterfaces| ==> serverInterfaces[k] == links[k].end0.addr
    }

    /**
     * One iteration of the server loop: server `serverIndex` is linked to
     * leaf i with a fresh delay queue disc on the server side and a fresh
     * switch queue disc on the leaf side; the two take the next two hosts.
     */
    method ConnectServer(serverIndex: nat, i: nat, aqm: Aqm) returns (link: Link)
      requires Valid() && InterfacesMatch() && |serverInterfaces| == |links|
      modifies this`links, this`queueDiscs, this`serverInterfaces, this`nextHost
      ensures Valid() && InterfacesMatch() && |serverInterfaces| == |links|
      ensures link == Link(
        Endpoint(Node(Server, serverIndex), QueueDisc(2 * |old(links)|, DelayQueueDisc(HostDelayClasses)),
                 Ipv4Address(network, old(nextHost))),
        Endpoint(Node(Leaf, i), QueueDisc(2 * |old(links)| + 1, SwitchQueueKind(aqm)),
                 Ipv4Address(network, old(nextHost) + 1)))
      ensures links == old(links) + [link] && nextHost == old(nextHost) + 2
    {
      var delayQueueDisc := CreateQueueDisc(DelayQueueDisc(HostDelayClasses));
      var switchSideQueueDisc := CreateQueueDisc(SwitchQueueKind(aqm));
      var serverAddr, leafAddr := Assign();
      link := Link(Endpoint(Node(Server, serverIndex), delayQueueDisc, serverAddr),
                   Endpoint(Node(Leaf, i), switchSideQueueDisc, leafAddr));
      Install(link);
      serverInterfaces := serverInterfaces + [serverAddr];
    }

    /**
     * One pass of the server loop, for leaf i: a new network, then one link
     * per server of the leaf, server i * serversPerLeaf + j in slot j.
     */
    method ConnectLeafServers(i: nat, aqm: Aqm)
      requires Valid() && InterfacesMatch() && |serverInterfaces| == |links|
      requires network == i && |links| == i * serversPerLeaf
      modifies this`links, this`queueDiscs, this`serverInterfaces, this`network, this`nextHost
      ensures Valid() && InterfacesMatch() && |serverInterfaces| == |links|
      ensures links == old(links) + ServerRow(i, serversPerLeaf, aqm, |old(links)|)
      ensures network == i + 1
    {
      NewNetwork();
      ghost var done := links;
      ghost var row := ServerRow(i, serversPerLeaf, aqm, |done|);
      var j := 0;
      while j < serversPerLeaf
        invariant 0 <= j <= serversPerLeaf
        invariant Valid() && InterfacesMatch() && |serverInterfaces| == |links|
        invariant links == done + row[..j]
        invariant network == i + 1 && nextHost == 2 * j + 1
      {
        var serverIndex := i * serversPerLeaf + j;
        assert 2 * |links| == 2 * (|done| + j) && |done| + j == serverIndex;
        var link := ConnectServer(serverIndex, i, aqm);
        assert row[j] == ServerLink(|done| + j, i, j, aqm);
        assert link == row[j];
        assert row[..j + 1] == row[..j] + [row[j]];
        j := j + 1;
      }
      assert row[..serversPerLeaf] == row;
    }

    /** The server loop: every leaf's servers, leaf by leaf. */
    method ConnectServers(aqm: Aqm)
      requires links == [] && queueDiscs == [] && serverInterfaces == [] && network == 0
      modifies this`links, this`queueDiscs, this`serverInterfaces, this`network, this`nextHost
      ensures Valid() && InterfacesMatch() && |serverInterfaces| == |links|
      ensures links == ServerLinks(leafCount, serversPerLeaf, aqm)
      ensures network == leafCount
    {
      var i := 0;
      while i < leafCount
        invariant 0 <= i <= leafCount
        invariant Valid() && InterfacesMatch() && |serverInterfaces| == |links|
        invariant links == ServerLinks(i, serversPerLeaf, aqm)
        invariant network == i
      {
        ServerLinksCount(i, serversPerLeaf, aqm);
        ConnectLeafServers(i, aqm);
        i := i + 1;
      }
    }

    /**
     * One iteration of the switch loop: a new network, and leaf i linked to
     * spine j with a fresh switch queue disc on each side, hosts 1 and 2.
     */
    method ConnectSwitch(i: nat, j: nat, aqm: Aqm) returns (link: Link)
      requires Valid()
      modifies this`links, this`queueDiscs, this`network, this`nextHost
      ensures Valid()
      ensures network == old(network) + 1
      ensures link == Uplink(|old(links)|, network, i, j, aqm)
      ensures links == old(links) + [link]
    {
      NewNetwork();
      var leafQueueDisc := CreateQueueDisc(SwitchQueueKind(aqm));
      var spineQueueDisc := CreateQueueDisc(SwitchQueueKind(aqm));
      var leafAddr, spineAddr := Assign();
      link := Link(Endpoint(Node(Leaf, i), leafQueueDisc, leafAddr),
                   Endpoint(Node(Spine, j), spineQueueDisc, spineAddr));
      Install(link);
    }

    /** The innermost switch loop: the `linkCount` parallel links from leaf i to spine j. */
    method ConnectPair(i: nat, j: nat, linkCount: nat, aqm: Aqm)
      requires Valid()
      modifies this`links, this`queueDiscs, this`network, this`nextHost
      ensures Valid()
      ensures links == old(links) + ParallelLinks(i, j, linkCount, aqm, |old(links)|, old(network))
      ensures network == old(network) + linkCount
    {
      ghost var done := links;
      ghost var par := ParallelLinks(i, j, linkCount, aqm, |links|, network);
      var l := 0;
      while l < linkCount
        invariant 0 <= l <= linkCount
        invariant Valid()
        invariant links == done + par[..l]
        invariant network == old(network) + l
      {
        var link := ConnectSwitch(i, j, aqm);
        assert link == par[l];
        assert par[..l + 1] == par[..l] + [par[l]];
        l := l + 1;
      }
      assert par[..linkCount] == par;
    }

    /** The middle switch loop: leaf i's links to every spine, spine by spine. */
    method ConnectLeafSwitches(i: nat, linkCount: nat, aqm: Aqm)
      requires Valid()
      modifies this`links, this`queueDiscs, this`network, this`nextHost
      ensures Valid()
      ensures links == old(links) + LeafUplinks(i, spineCount, linkCount, aqm, |old(links)|, old(network))
      ensures network + |old(links)| == old(network) + |links|
    {
      ghost var before := links;
      var j := 0;
      while j < spineCount
        invariant 0 <= j <= spineCount
        invariant Valid()
        invariant links == before + LeafUplinks(i, j, linkCount, aqm, |before|, old(network))
        invariant network + |before| == old(network) + |links|
      {
        ConnectPair(i, j, linkCount, aqm);
        j := j + 1;
      }
    }

    /** The switch loop: every leaf's links to the spines, leaf by leaf. */
    method ConnectSwitches(aqm: Aqm, linkCount: nat)
      requires Valid()
      modifies this`links, this`queueDiscs, this`network, this`nextHost
      ensures Valid()
      ensures links == old(links) + Uplinks(leafCount, spineCount, linkCount, aqm, |old(links)|, old(network))
      ensures network + |old(links)| == old(network) + |links|
    {
      ghost var before := links;
      var i := 0;
      while i < leafCount
        invariant 0 <= i <= leafCount
        invariant Valid()
        invariant links == before + Uplinks(i, spineCount, linkCount, aqm, |before|, old(network))
        invariant network + |before| == old(network) + |links|
      {
        ghost var mid, midNetwork := links, network;
        ConnectLeafSwitches(i, linkCount, aqm);
        UplinksStep(before, mid, links, i, spineCount, linkCount, aqm, old(network), midNetwork);
        i := i + 1;
      }
    }
  }

  /**
   * Every link of the fabric: the server links, then the leaf-spine links,
   * whose networks follow the leaves' networks.
   */
  function FabricLinks(spineCount: nat, leafCount: nat, serversPerLeaf: nat, linkCount: nat, aqm: Aqm): seq<Link>
  {
    var serverLinks := ServerLinks(leafCount, serversPerLeaf, aqm);
    serverLinks + Uplinks(leafCount, spineCount, linkCount, aqm, |serverLinks|, leafCount)
  }

  /**
   * The construction phase: the node containers, the server loop, then the
   * switch loop. It calls NewNetwork once per leaf and once per leaf-spine
   * link, and records the server-side address of every server link.
   */
  method Build(spineCount: nat, leafCount: nat, serversPerLeaf: nat, linkCount: nat, aqm: Aqm)
    returns (fabric: Fabric)
    ensures fresh(fabric) && fabric.Valid() && fabric.InterfacesMatch()
    ensures fabric.spineCount == spineCount && fabric.leafCount == leafCount
    ensures fabric.serversPerLeaf == serversPerLeaf
    ensures fabric.links == FabricLinks(spineCount, leafCount, serversPerLeaf, linkCount, aqm)
    ensures |fabric.serverInterfaces| == fabric.ServerCount()
    ensures fabric.network == leafCount + leafCount * (spineCount * linkCount)
  {
    fabric := new Fabric(spineCount, leafCount, serversPerLeaf);
    fabric.ConnectServers(aqm);
    ghost var serverLinks := fabric.links;
    ServerLinksCount(leafCount, serversPerLeaf, aqm);
    fabric.ConnectSwitches(aqm, linkCount);
    UplinksCount(leafCount, spineCount, linkCount, aqm, |serverLinks|, leafCount);
  }

  /**
   * The links of the fabric: L * H server links, server k attached to the
   * leaf whose block holds k, then L * (S * C) leaf-spine links, the m-th of
   * them inside the block of its (leaf, spine) pair and on network L + m + 1.
   * The kinds of queue disc on each endpoint are those of IsServerLink and
   * IsUplink.
   */
  lemma FabricShape(spineCount: nat, leafCount: nat, serversPerLeaf: nat, linkCount: nat, aqm: Aqm)
    ensures var f := FabricLinks(spineCount, leafCount, serversPerLeaf, linkCount, aqm);
      |f| == leafCount * serversPerLeaf + leafCount * (spineCount * linkCount)
    ensures var f := FabricLinks(spineCount, leafCount, serversPerLeaf, linkCount, aqm);
      forall k :: 0 <= k < leafCount * serversPerLeaf ==> IsServerLink(f[k], k, leafCount, serversPerLeaf, aqm)
    ensures var f := FabricLinks(spineCount, leafCount, serversPerLeaf, linkCount, aqm);
      forall k :: leafCount * serversPerLeaf <= k < |f| ==>
        IsUplink(f[k], k, k - leafCount * serversPerLeaf, leafCount + (k - leafCount * serversPerLeaf) + 1,
                 leafCount, spineCount, linkCount, aqm)
  {
    var serverLinks := ServerLinks(leafCount, serversPerLeaf, aqm);
    var uplinks := Uplinks(leafCount, spineCount, linkCount, aqm, |serverLinks|, leafCount);
    ServerLinksShape(leafCount, serversPerLeaf, aqm);
    UplinksShape(leafCount, spineCount, linkCount, aqm, |serverLinks|, leafCount);
    forall k | |serverLinks| <= k < |serverLinks + uplinks|
      ensures IsUplink((serverLinks + uplinks)[k], k, k - |serverLinks|, leafCount + (k - |serverLinks|) + 1,
                       leafCount, spineCount, linkCount, aqm)
    {
      assert (serverLinks + uplinks)[k] == uplinks[k - |serverLinks|];
    }
  }

  /** One of the nodes the containers create: S spines, L leaves and L * H servers. */
  predicate Created(node: Node, spineCount: nat, leafCount: nat, serversPerLeaf: nat)
  {
    match node.role
    case Server => node.index < leafCount * serversPerLeaf
    case Leaf => node.index < leafCount
    case Spine => node.index < spineCount
  }

  /**
   * The fabric connects only created nodes, and each of the L * H servers
   * has exactly one link: server k is the first end of link k, and no other
   * endpoint is a server.
   */
  lemma FabricNodes(spineCount: nat, leafCount: nat, serversPerLeaf: nat, linkCount: nat, aqm: Aqm)
    ensures var f := FabricLinks(spineCount, leafCount, serversPerLeaf, linkCount, aqm);
      forall k :: 0 <= k < |f| ==>
        Created(f[k].end0.node, spineCount, leafCount, serversPerLeaf)
        && Created(f[k].end1.node, spineCount, leafCount, serversPerLeaf)
    ensures leafCount * serversPerLeaf <= |FabricLinks(spineCount, leafCount, serversPerLeaf, linkCount, aqm)|
    ensures var f := FabricLinks(spineCount, leafCount, serversPerLeaf, linkCount, aqm);
      forall k :: 0 <= k < leafCount * serversPerLeaf ==> f[k].end0.node == Node(Server, k)
    ensures var f := FabricLinks(spineCount, leafCount, serversPerLeaf, linkCount, aqm);
      forall k :: 0 <= k < |f| ==>
        (f[k].end0.node.role == Server <==> k < leafCount * serversPerLeaf) && f[k].end1.node.role != Server
  {
    var f := FabricLinks(spineCount, leafCount, serversPerLeaf, linkCount, aqm);
    var n := leafCount * serversPerLeaf;
    FabricShape(spineCount, leafCount, serversPerLeaf, linkCount, aqm);
    forall k | 0 <= k < |f|
      ensures Created(f[k].end0.node, spineCount, leafCount, serversPerLeaf)
      ensures Created(f[k].end1.node, spineCount, leafCount, serversPerLeaf)
      ensures (f[k].end0.node.role == Server <==> k < n) && f[k].end1.node.role != Server
    {
      if k < n {
        assert IsServerLink(f[k], k, leafCount, serversPerLeaf, aqm);
      } else {
        assert IsUplink(f[k], k, k - n, leafCount + (k - n) + 1, leafCount, spineCount, linkCount, aqm);
      }
    }
  }

  /**
   * Subnet allocation: both ends of a link are on one network, networks run
   * from 1 to L + L * (S * C) (one per NewNetwork call), and two different
   * links share a network exactly when both are server links of one leaf.
   */
  lemma FabricSubnets(spineCount: nat, leafCount: nat, serversPerLeaf: nat, linkCount: nat, aqm: Aqm)
    ensures var f := FabricLinks(spineCount, leafCount, serversPerLeaf, linkCount, aqm);
      forall k :: 0 <= k < |f| ==>
        && f[k].end0.addr.network == f[k].end1.addr.network
        && 1 <= f[k].end0.addr.network <= leafCount + leafCount * (spineCount * linkCount)
    ensures var f := FabricLinks(spineCount, leafCount, serversPerLeaf, linkCount, aqm);
      forall k1, k2 :: 0 <= k1 < |f| && 0 <= k2 < |f| && k1 != k2 ==>
        (f[k1].end0.addr.network == f[k2].end0.addr.network <==>
         k1 < leafCount * serversPerLeaf && k2 < leafCount * serversPerLeaf && f[k1].end1.node == f[k2].end1.node)
  {
    var f := FabricLinks(spineCount, leafCount, serversPerLeaf, linkCount, aqm);
    forall k | 0 <= k < |f|
      ensures f[k].end0.addr.network == f[k].end1.addr.network
      ensures 1 <= f[k].end0.addr.network <= leafCount + leafCount * (spineCount * linkCount)
    {
      FabricLinkAt(spineCount, leafCount, serversPerLeaf, linkCount, aqm, k);
    }
    forall k1, k2 | 0 <= k1 < |f| && 0 <= k2 < |f| && k1 != k2
      ensures f[k1].end0.addr.network == f[k2].end0.addr.network <==>
        k1 < leafCount * serversPerLeaf && k2 < leafCount * serversPerLeaf && f[k1].end1.node == f[k2].end1.node
    {
      FabricLinkAt(spineCount, leafCount, serversPerLeaf, linkCount, aqm, k1);
      FabricLinkAt(spineCount, leafCount, serversPerLeaf, linkCount, aqm, k2);
    }
  }

  /**
   * The addresses and queue discs of link k. A server link is on its leaf's
   * network, 1 to L, with hosts 2 * slot + 1 and 2 * slot + 2; the m-th
   * leaf-spine link is on network L + m + 1 with hosts 1 and 2. The ends
   * hold queue discs 2k and 2k + 1.
   */
  lemma FabricLinkAt(spineCount: nat, leafCount: nat, serversPerLeaf: nat, linkCount: nat, aqm: Aqm, k: nat)
    requires k < |FabricLinks(spineCount, leafCount, serversPerLeaf, linkCount, aqm)|
    ensures var f := FabricLinks(spineCount, leafCount, serversPerLeaf, linkCount, aqm);
      && f[k].end0.addr.network == f[k].end1.addr.network
      && 1 <= f[k].end0.addr.network <= leafCount + leafCount * (spineCount * linkCount)
      && (k < leafCount * serversPerLeaf ==>
            f[k].end1.node.role == Leaf && f[k].end0.addr.network == f[k].end1.node.index + 1 <= leafCount)
      && (k < leafCount * serversPerLeaf ==>
            var slot := k - f[k].end1.node.index * serversPerLeaf;
            f[k].end0.addr.host == 2 * slot + 1 && f[k].end1.addr.host == 2 * slot + 2)
      && (k >= leafCount * serversPerLeaf ==>
            && f[k].end0.addr.network == leafCount + (k - leafCount * serversPerLeaf) + 1
            && f[k].end0.addr.host == 1 && f[k].end1.addr.host == 2)
      && f[k].end0.queue.id == 2 * k && f[k].end1.queue.id == 2 * k + 1
  {
    var serverLinks := ServerLinks(leafCount, serversPerLeaf, aqm);
    var uplinks := Uplinks(leafCount, spineCount, linkCount, aqm, |serverLinks|, leafCount);
    ServerLinksShape(leafCount, serversPerLeaf, aqm);
    UplinksShape(leafCount, spineCount, linkCount, aqm, |serverLinks|, leafCount);
    if k < |serverLinks| {
      assert (serverLinks + uplinks)[k] == serverLinks[k];
      assert IsServerLink(serverLinks[k], k, leafCount, serversPerLeaf, aqm);
    } else {
      var m := k - |serverLinks|;
      assert (serverLinks + uplinks)[k] == uplinks[m];
      assert IsUplink(uplinks[m], k, m, leafCount + m + 1, leafCount, spineCount, linkCount, aqm);
    }
  }

  /**
   * No address is handed out twice: the two ends of a link differ, and no
   * end of one link has the address of an end of another.
   */
  lemma FabricAddressesDistinct(spineCount: nat, leafCount: nat, serversPerLeaf: nat, linkCount: nat, aqm: Aqm)
    ensures var f := FabricLinks(spineCount, leafCount, serversPerLeaf, linkCount, aqm);
      forall k :: 0 <= k < |f| ==> f[k].end0.addr != f[k].end1.addr
    ensures var f := FabricLinks(spineCount, leafCount, serversPerLeaf, linkCount, aqm);
      forall k1, k2 :: 0 <= k1 < |f| && 0 <= k2 < |f| && k1 != k2 ==>
        && f[k1].end0.addr != f[k2].end0.addr && f[k1].end0.addr != f[k2].end1.addr
        && f[k1].end1.addr != f[k2].end1.addr
  {
    var f := FabricLinks(spineCount, leafCount, serversPerLeaf, linkCount, aqm);
    forall k | 0 <= k < |f|
      ensures f[k].end0.addr != f[k].end1.addr
    {
      FabricLinkAt(spineCount, leafCount, serversPerLeaf, linkCount, aqm, k);
    }
    forall k1, k2 | 0 <= k1 < |f| && 0 <= k2 < |f| && k1 != k2
      ensures && f[k1].end0.addr != f[k2].end0.addr && f[k1].end0.addr != f[k2].end1.addr
              && f[k1].end1.addr != f[k2].end1.addr
    {
      FabricLinkAt(spineCount, leafCount, serversPerLeaf, linkCount, aqm, k1);
      FabricLinkAt(spineCount, leafCount, serversPerLeaf, linkCount, aqm, k2);
    }
  }

  /**
   * Every endpoint has a queue disc of its own: the two ends of a link have
   * different instances, and no instance sits on two links.
   */
  lemma FabricQueueDiscsDistinct(spineCount: nat, leafCount: nat, serversPerLeaf: nat, linkCount: nat, aqm: Aqm)
    ensures var f := FabricLinks(spineCount, leafCount, serversPerLeaf, linkCount, aqm);
      forall k :: 0 <= k < |f| ==> f[k].end0.queue != f[k].end1.queue
    ensures var f := FabricLinks(spineCount, leafCount, serversPerLeaf, linkCount, aqm);
      forall k1, k2 :: 0 <= k1 < |f| && 0 <= k2 < |f| && k1 != k2 ==>
        && f[k1].end0.queue != f[k2].end0.queue && f[k1].end0.queue != f[k2].end1.queue
        && f[k1].end1.queue != f[k2].end1.queue
  {
    var f := FabricLinks(spineCount, leafCount, serversPerLeaf, linkCount, aqm);
    forall k | 0 <= k < |f|
      ensures f[k].end0.queue != f[k].end1.queue
    {
      FabricLinkAt(spineCount, leafCount, serversPerLeaf, linkCount, aqm, k);
    }
    forall k1, k2 | 0 <= k1 < |f| && 0 <= k2 < |f| && k1 != k2
      ensures && f[k1].end0.queue != f[k2].end0.queue && f[k1].end0.queue != f[k2].end1.queue
              && f[k1].end1.queue != f[k2].end1.queue
    {
      FabricLinkAt(spineCount, leafCount, serversPerLeaf, linkCount, aqm, k1);
      FabricLinkAt(spineCount, leafCount, serversPerLeaf, linkCount, aqm, k2);
    }
  }
}
