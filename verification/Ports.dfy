/** Host-port allocation (argus/ports.py) over the layout of argus/constants.py. */
module Ports {
  import opened Options

  const BLOCK_BASE := 30000
  const BLOCK_SIZE := 1000
  const NETWORKS: nat := 7
  const FULCRUM_BASE := 40
  const FULCRUM_STRIDE := 4
  const FULCRUM_MAX: nat := 15
  const GUARDIAN_BASE := 500
  const GUARDIAN_STRIDE := 4
  const GATEWAY_BASE := 520
  const GATEWAY_STRIDE := 2
  const MAX_GUARDIANS: nat := 3
  const P2P_POOL_BASE := 400
  const GRPC_POOL_BASE := 450
  const MAX_POOL: nat := 50

  datatype Service =
    | BitcoindP2p | BitcoindRpc | LndP2p | LndRest | LndGrpc | Lnd2P2p | Lnd2Rest | Lnd2Grpc | Lnd3P2p
    | Lnd3Rest | Lnd3Grpc | CashuPublic | CashuWalletPublic | CashupayserverPublic | BitcartStorePublic
    | BitcartAdminPublic | BitcartApiPublic | WoocommercePublic | MempoolPublic | CashuBackend
    | CashuWalletBackend | CashupayserverBackend | BitcartStore | BitcartAdmin | BitcartApi | BitcartDaemon
    | WoocommerceBackend | WoocommerceDb | MempoolWeb | MempoolApi | MempoolDb | ArkCaptaindPublic
    | ArkCaptaind | ArkCaptaindAdmin | ArkClnP2p | ArkClnGrpc | ArkClnHold | ElectrumRpc | NostrRelayPublic
    | NostrRelayBackend

  function OffsetOf(s: Service): nat {
    match s
    case BitcoindP2p => 0
    case BitcoindRpc => 1
    case LndP2p => 10
    case LndRest => 11
    case LndGrpc => 12
    case Lnd2P2p => 13
    case Lnd2Rest => 14
    case Lnd2Grpc => 15
    case Lnd3P2p => 16
    case Lnd3Rest => 17
    case Lnd3Grpc => 18
    case CashuPublic => 100
    case CashuWalletPublic => 101
    case CashupayserverPublic => 120
    case BitcartStorePublic => 200
    case BitcartAdminPublic => 201
    case BitcartApiPublic => 202
    case WoocommercePublic => 220
    case MempoolPublic => 300
    case CashuBackend => 110
    case CashuWalletBackend => 111
    case CashupayserverBackend => 130
    case BitcartStore => 210
    case BitcartAdmin => 211
    case BitcartApi => 212
    case BitcartDaemon => 213
    case WoocommerceBackend => 230
    case WoocommerceDb => 231
    case MempoolWeb => 301
    case MempoolApi => 310
    case MempoolDb => 311
    case ArkCaptaindPublic => 600
    case ArkCaptaind => 601
    case ArkCaptaindAdmin => 602
    case ArkClnP2p => 603
    case ArkClnGrpc => 604
    case ArkClnHold => 605
    case ElectrumRpc => 700
    case NostrRelayPublic => 701
    case NostrRelayBackend => 702
  }

  /** The service at an offset: the layout table read backwards. */
  function ServiceAt(offset: int): Option<Service> {
    match offset
    case 0 => Some(BitcoindP2p)
    case 1 => Some(BitcoindRpc)
    case 10 => Some(LndP2p)
    case 11 => Some(LndRest)
    case 12 => Some(LndGrpc)
    case 13 => Some(Lnd2P2p)
    case 14 => Some(Lnd2Rest)
    case 15 => Some(Lnd2Grpc)
    case 16 => Some(Lnd3P2p)
    case 17 => Some(Lnd3Rest)
    case 18 => Some(Lnd3Grpc)
    case 100 => Some(CashuPublic)
    case 101 => Some(CashuWalletPublic)
    case 120 => Some(CashupayserverPublic)
    case 200 => Some(BitcartStorePublic)
    case 201 => Some(BitcartAdminPublic)
    case 202 => Some(BitcartApiPublic)
    case 220 => Some(WoocommercePublic)
    case 300 => Some(MempoolPublic)
    case 110 => Some(CashuBackend)
    case 111 => Some(CashuWalletBackend)
    case 130 => Some(CashupayserverBackend)
    case 210 => Some(BitcartStore)
    case 211 => Some(BitcartAdmin)
    case 212 => Some(BitcartApi)
    case 213 => Some(BitcartDaemon)
    case 230 => Some(WoocommerceBackend)
    case 231 => Some(WoocommerceDb)
    case 301 => Some(MempoolWeb)
    case 310 => Some(MempoolApi)
    case 311 => Some(MempoolDb)
    case 600 => Some(ArkCaptaindPublic)
    case 601 => Some(ArkCaptaind)
    case 602 => Some(ArkCaptaindAdmin)
    case 603 => Some(ArkClnP2p)
    case 604 => Some(ArkClnGrpc)
    case 605 => Some(ArkClnHold)
    case 700 => Some(ElectrumRpc)
    case 701 => Some(NostrRelayPublic)
    case 702 => Some(NostrRelayBackend)
    case _ => None
  }

  /** A named port; only the first port of a Bitcart pool gets a name of its own in the source. */
  datatype PortName =
    | Fixed(service: Service)
    | Fulcrum(i: nat, use: FulcrumUse)
    | Guardian(i: nat, guardianUse: GuardianUse)
    | Gateway(i: nat, isPublic: bool)
    | P2pPool(i: nat)
    | GrpcPool(i: nat)

  datatype FulcrumUse = ElectrumTcp | ElectrumSsl | Admin
  datatype GuardianUse = ApiPublic | Api | Ui

  datatype NetCfg = NetCfg(
    indexers: nat, guardians: nat, bitcart: bool, poolSize: nat,
    bitcartStore: Option<int>, bitcartAdmin: Option<int>, bitcartApi: Option<int>, bitcartDaemon: Option<int>,
    overrides: map<PortName, int>)

  /** An enabled network: its place in the canonical order and its configuration. */
  datatype Network = Network(key: nat, cfg: NetCfg)

  function Offset(name: PortName): int {
    match name
    case Fixed(s) => OffsetOf(s)
    case Fulcrum(i, use) =>
      FULCRUM_BASE + i * FULCRUM_STRIDE + (match use case ElectrumTcp => 0 case ElectrumSsl => 1 case Admin => 2)
    case Guardian(i, use) =>
      GUARDIAN_BASE + i * GUARDIAN_STRIDE + (match use case ApiPublic => 0 case Api => 1 case Ui => 2)
    case Gateway(i, isPublic) => GATEWAY_BASE + i * GATEWAY_STRIDE + (if isPublic then 1 else 0)
    case P2pPool(i) => P2P_POOL_BASE + i
    case GrpcPool(i) => GRPC_POOL_BASE + i
  }

  function BlockBase(key: nat): int {
    BLOCK_BASE + key * BLOCK_SIZE
  }

  /** The names a network's port map has. */
  predicate Has(cfg: NetCfg, name: PortName) {
    match name
    case Fixed(_) => true
    case Fulcrum(i, _) => i < cfg.indexers
    case Guardian(i, _) => i < cfg.guardians
    case Gateway(i, _) => i < cfg.guardians
    case P2pPool(i) => cfg.bitcart && i == 0
    case GrpcPool(i) => cfg.bitcart && i == 0
  }

  function BitcartOverride(cfg: NetCfg, name: PortName): Option<int> {
    match name
    case Fixed(BitcartStorePublic) => cfg.bitcartStore
    case Fixed(BitcartAdminPublic) => cfg.bitcartAdmin
    case Fixed(BitcartApiPublic) => cfg.bitcartApi
    case Fixed(BitcartDaemon) => cfg.bitcartDaemon
    case _ => None
  }

  /** The port a name is assigned: generic override, Bitcart override, default, in this order. */
  function PortOf(n: Network, name: PortName): int {
    if name in n.cfg.overrides then n.cfg.overrides[name]
    else if BitcartOverride(n.cfg, name).Some? then BitcartOverride(n.cfg, name).value
    else BlockBase(n.key) + Offset(name)
  }

  datatype Tag = Tag(net: nat, name: PortName)

  datatype PortError =
    | TooManyIndexers(key: nat)
    | UnknownOverride(key: nat, name: PortName)
    | Collision(port: int, first: Tag, second: Tag)

  datatype Outcome<T> = Allocated(value: T) | Failed(error: PortError)

  predicate Acceptable(cfg: NetCfg) {
    cfg.indexers <= FULCRUM_MAX && forall name :: name in cfg.overrides ==> Has(cfg, name)
  }

  /** The port map is exactly the assigned names with their ports. */
  ghost predicate Describes(ports: map<PortName, int>, n: Network) {
    && (forall name :: name in ports <==> Has(n.cfg, name))
    && (forall name :: name in ports ==> ports[name] == PortOf(n, name))
  }

  // -- one network ------------------------------------------------------------------

  /** The port map before overrides. */
  ghost predicate Defaults(ports: map<PortName, int>, n: Network) {
    && (forall name :: name in ports <==> Has(n.cfg, name))
    && (forall name :: name in ports ==> ports[name] == BlockBase(n.key) + Offset(name))
  }

  /** ports extends from by the names in one family, each at its default port. */
  ghost predicate Extends(ports: map<PortName, int>, from: map<PortName, int>, base: int, family: PortName -> bool) {
    && (forall name :: name in ports <==> name in from || family(name))
    && (forall name :: name in ports ==> ports[name] == if family(name) then base + Offset(name) else from[name])
  }

  method AddFulcrum(base: int, count: nat, from: map<PortName, int>) returns (ports: map<PortName, int>)
    ensures Extends(ports, from, base, (name: PortName) => name.Fulcrum? && name.i < count)
  {
    hide OffsetOf;
    ports := from;
    for i := 0 to count
      invariant Extends(ports, from, base, (name: PortName) => name.Fulcrum? && name.i < i)
    {
      forall name: PortName | name.Fulcrum? && name.i == i
        ensures name in {Fulcrum(i, ElectrumTcp), Fulcrum(i, ElectrumSsl), Fulcrum(i, Admin)}
      {
        match name.use {
          case ElectrumTcp =>
          case ElectrumSsl =>
          case Admin =>
        }
      }
      var start := base + FULCRUM_BASE + i * FULCRUM_STRIDE;
      ports := ports[Fulcrum(i, ElectrumTcp) := start][Fulcrum(i, ElectrumSsl) := start + 1];
      ports := ports[Fulcrum(i, Admin) := start + 2];
    }
  }

  method AddGuardians(base: int, count: nat, from: map<PortName, int>) returns (ports: map<PortName, int>)
    ensures Extends(ports, from, base, (name: PortName) => name.Guardian? && name.i < count)
  {
    hide OffsetOf;
    ports := from;
    for i := 0 to count
      invariant Extends(ports, from, base, (name: PortName) => name.Guardian? && name.i < i)
    {
      forall name: PortName | name.Guardian? && name.i == i
        ensures name in {Guardian(i, ApiPublic), Guardian(i, Api), Guardian(i, Ui)}
      {
        match name.guardianUse {
          case ApiPublic =>
          case Api =>
          case Ui =>
        }
      }
      var g := base + GUARDIAN_BASE + i * GUARDIAN_STRIDE;
      ports := ports[Guardian(i, ApiPublic) := g][Guardian(i, Api) := g + 1][Guardian(i, Ui) := g + 2];
    }
  }

  method AddGateways(base: int, count: nat, from: map<PortName, int>) returns (ports: map<PortName, int>)
    ensures Extends(ports, from, base, (name: PortName) => name.Gateway? && name.i < count)
  {
    hide OffsetOf;
    ports := from;
    for i := 0 to count
      invariant Extends(ports, from, base, (name: PortName) => name.Gateway? && name.i < i)
    {
      var gw := base + GATEWAY_BASE + i * GATEWAY_STRIDE;
      ports := ports[Gateway(i, false) := gw][Gateway(i, true) := gw + 1];
    }
  }

  method FixedPorts(base: int) returns (ports: map<PortName, int>)
    ensures Extends(ports, map[], base, (name: PortName) => name.Fixed?)
  {
    hide OffsetOf;
    ports := map s: Service | true :: Fixed(s) := base + OffsetOf(s);
  }

  method AddPools(base: int, enabled: bool, from: map<PortName, int>) returns (ports: map<PortName, int>)
    ensures Extends(ports, from, base, (name: PortName) => enabled && (name.P2pPool? || name.GrpcPool?) && name.i == 0)
  {
    hide OffsetOf;
    ports := from;
    if enabled {
      ports := ports[P2pPool(0) := base + P2P_POOL_BASE][GrpcPool(0) := base + GRPC_POOL_BASE];
    }
  }

  method DefaultPorts(n: Network) returns (ports: map<PortName, int>)
    ensures Defaults(ports, n)
  {
    hide Offset;
    var base := BlockBase(n.key);
    ports := FixedPorts(base);
    ports := AddFulcrum(base, n.cfg.indexers, ports);
    ports := AddGuardians(base, n.cfg.guardians, ports);
    ports := AddGateways(base, n.cfg.guardians, ports);
    ports := AddPools(base, n.cfg.bitcart, ports);
  }

  function Overridden(ports: map<PortName, int>, name: PortName, port: Option<int>): map<PortName, int> {
    if port.Some? then ports[name := port.value] else ports
  }

  /** The generic overrides, which must name known ports and win over everything. */
  method ApplyOverrides(n: Network, from: map<PortName, int>) returns (r: Outcome<map<PortName, int>>)
    ensures r.Allocated? <==> n.cfg.overrides.Keys <= from.Keys
    ensures r.Allocated? ==> r.value == from + n.cfg.overrides
    ensures r.Failed? ==>
              (exists name :: name in n.cfg.overrides && name !in from && r.error == UnknownOverride(n.key, name))
  {
    var ports := from;
    var pending := n.cfg.overrides.Keys;
    while pending != {}
      invariant pending <= n.cfg.overrides.Keys
      invariant n.cfg.overrides.Keys - pending <= ports.Keys == from.Keys
      invariant forall name :: name in ports ==>
                  ports[name] == if name in n.cfg.overrides && name !in pending
                                 then n.cfg.overrides[name] else from[name]
      decreases |pending|
    {
      var name :| name in pending;
      if name !in ports {
        return Failed(UnknownOverride(n.key, name));
      }
      ports := ports[name := n.cfg.overrides[name]];
      pending := pending - {name};
    }
    return Allocated(ports);
  }

  lemma OverridesDescribe(n: Network, defaults: map<PortName, int>, ports: map<PortName, int>)
    requires Defaults(defaults, n)
    requires ports == Overridden(Overridden(Overridden(Overridden(defaults,
                        Fixed(BitcartStorePublic), n.cfg.bitcartStore), Fixed(BitcartAdminPublic), n.cfg.bitcartAdmin),
                        Fixed(BitcartApiPublic), n.cfg.bitcartApi), Fixed(BitcartDaemon), n.cfg.bitcartDaemon)
    ensures forall name :: name in ports <==> Has(n.cfg, name)
    ensures n.cfg.overrides.Keys <= ports.Keys ==> Describes(ports + n.cfg.overrides, n)
  {
    hide Offset, BlockBase;
  }

  method NetworkPorts(n: Network) returns (r: Outcome<map<PortName, int>>)
    ensures r.Allocated? <==> Acceptable(n.cfg)
    ensures r.Allocated? ==> Describes(r.value, n)
    ensures r.Failed? ==> match r.error
                          case TooManyIndexers(key) => key == n.key && n.cfg.indexers > FULCRUM_MAX
                          case UnknownOverride(key, name) =>
                            key == n.key && name in n.cfg.overrides && !Has(n.cfg, name)
                          case Collision(_, _, _) => false
  {
    hide Offset, BlockBase, Has, Defaults, Describes;
    if n.cfg.indexers > FULCRUM_MAX {
      return Failed(TooManyIndexers(n.key));
    }
    var ports := DefaultPorts(n);
    ghost var defaults := ports;
    ports := Overridden(ports, Fixed(BitcartStorePublic), n.cfg.bitcartStore);
    ports := Overridden(ports, Fixed(BitcartAdminPublic), n.cfg.bitcartAdmin);
    ports := Overridden(ports, Fixed(BitcartApiPublic), n.cfg.bitcartApi);
    ports := Overridden(ports, Fixed(BitcartDaemon), n.cfg.bitcartDaemon);
    OverridesDescribe(n, defaults, ports);
    hide Overridden;
    r := ApplyOverrides(n, ports);
  }

  // -- all networks ------------------------------------------------------------------

  predicate Owns(nets: seq<Network>, t: Tag) {
    t.net < |nets| && Has(nets[t.net].cfg, t.name)
  }

  function PortAt(nets: seq<Network>, t: Tag): int
    requires t.net < |nets|
  {
    PortOf(nets[t.net], t.name)
  }

  /** No two assigned names share a port. */
  ghost predicate CollisionFree(nets: seq<Network>) {
    forall t, u :: Owns(nets, t) && Owns(nets, u) && PortAt(nets, t) == PortAt(nets, u) ==> t == u
  }

  /** The owner table holds exactly the tags registered so far, each under its port. */
  ghost predicate Registered(nets: seq<Network>, owner: map<int, Tag>, net: nat, names: set<PortName>) {
    && (forall p :: p in owner ==> Owns(nets, owner[p]) && PortAt(nets, owner[p]) == p)
    && (forall t :: Owns(nets, t) && (t.net < net || (t.net == net && t.name in names)) ==>
          PortAt(nets, t) in owner && owner[PortAt(nets, t)] == t)
    && (forall p :: p in owner ==> owner[p].net < net || (owner[p].net == net && owner[p].name in names))
  }

  lemma RegisterOne(nets: seq<Network>, owner: map<int, Tag>, net: nat, names: set<PortName>, name: PortName)
    requires Registered(nets, owner, net, names) && Owns(nets, Tag(net, name)) && PortAt(nets, Tag(net, name)) !in owner
    ensures Registered(nets, owner[PortAt(nets, Tag(net, name)) := Tag(net, name)], net, names + {name})
  {
    hide PortOf, Has;
  }

  /** A port already in the owner table belongs to some other tag. */
  lemma Clash(nets: seq<Network>, owner: map<int, Tag>, net: nat, names: set<PortName>, name: PortName)
    requires Registered(nets, owner, net, names) && name !in names && net < |nets|
    requires PortAt(nets, Tag(net, name)) in owner
    ensures var p := PortAt(nets, Tag(net, name));
            owner[p] != Tag(net, name) && Owns(nets, owner[p]) && PortAt(nets, owner[p]) == p
  {
    hide PortOf, Has;
  }

  lemma NetworkDone(nets: seq<Network>, owner: map<int, Tag>, net: nat, names: set<PortName>)
    requires net < |nets| && Registered(nets, owner, net, names)
    requires forall name :: name in names <==> Has(nets[net].cfg, name)
    ensures Registered(nets, owner, net + 1, {})
  {
    hide PortOf, Has;
  }

  method Register(nets: seq<Network>, net: nat, ports: map<PortName, int>, owner: map<int, Tag>)
    returns (r: Outcome<map<int, Tag>>)
    requires net < |nets| && Describes(ports, nets[net]) && Registered(nets, owner, net, {})
    ensures r.Allocated? ==> Registered(nets, r.value, net + 1, {})
    ensures r.Failed? ==> r.error.Collision? && Owns(nets, r.error.first) && Owns(nets, r.error.second)
    ensures r.Failed? ==> r.error.first != r.error.second
    ensures r.Failed? ==> PortAt(nets, r.error.first) == r.error.port && PortAt(nets, r.error.second) == r.error.port
  {
    hide PortOf, Has, Registered;
    var table := owner;
    var pending, done := ports.Keys, {};
    while pending != {}
      invariant pending + done == ports.Keys && pending !! done
      invariant Registered(nets, table, net, done)
      decreases |pending|
    {
      var name :| name in pending;
      var tag := Tag(net, name);
      assert Owns(nets, tag) && PortAt(nets, tag) == ports[name];
      if ports[name] in table {
        Clash(nets, table, net, done, name);
        return Failed(Collision(ports[name], table[ports[name]], tag));
      }
      RegisterOne(nets, table, net, done, name);
      table := table[ports[name] := tag];
      pending, done := pending - {name}, done + {name};
    }
    NetworkDone(nets, table, net, done);
    return Allocated(table);
  }

  method Allocate(nets: seq<Network>) returns (r: Outcome<seq<map<PortName, int>>>)
    ensures r.Allocated? <==> CollisionFree(nets) && forall i :: 0 <= i < |nets| ==> Acceptable(nets[i].cfg)
    ensures r.Allocated? ==> |r.value| == |nets| && forall i :: 0 <= i < |nets| ==> Describes(r.value[i], nets[i])
    ensures r.Failed? && r.error.Collision? ==>
              && Owns(nets, r.error.first) && Owns(nets, r.error.second) && r.error.first != r.error.second
              && PortAt(nets, r.error.first) == r.error.port && PortAt(nets, r.error.second) == r.error.port
  {
    hide PortOf, Has, Describes, Acceptable;
    var owner: map<int, Tag> := map[];
    var result: seq<map<PortName, int>> := [];
    for i := 0 to |nets|
      invariant |result| == i && forall j :: 0 <= j < i ==> Describes(result[j], nets[j]) && Acceptable(nets[j].cfg)
      invariant Registered(nets, owner, i, {})
    {
      var ports := NetworkPorts(nets[i]);
      if ports.Failed? {
        return Failed(ports.error);
      }
      var registered := Register(nets, i, ports.value, owner);
      if registered.Failed? {
        return Failed(registered.error);
      }
      owner := registered.value;
      result := result + [ports.value];
    }
    return Allocated(result);
  }

  /** The layout and the indexer limit with their numbers written out. */
  lemma LayoutInNumbers(n: Network, i: nat)
    requires NoOverrides(n.cfg)
    ensures var base := 30000 + 1000 * n.key;
            && PortOf(n, Fulcrum(i, ElectrumTcp)) == base + 40 + 4 * i
            && PortOf(n, Fulcrum(i, ElectrumSsl)) == base + 41 + 4 * i
            && PortOf(n, Fulcrum(i, Admin)) == base + 42 + 4 * i
            && PortOf(n, Guardian(i, ApiPublic)) == base + 500 + 4 * i
            && PortOf(n, Guardian(i, Api)) == base + 501 + 4 * i && PortOf(n, Guardian(i, Ui)) == base + 502 + 4 * i
            && PortOf(n, Gateway(i, false)) == base + 520 + 2 * i && PortOf(n, Gateway(i, true)) == base + 521 + 2 * i
            && PortOf(n, P2pPool(i)) == base + 400 + i && PortOf(n, GrpcPool(i)) == base + 450 + i
            && forall s :: base <= PortOf(n, Fixed(s)) <= base + 702 && ServiceAt(PortOf(n, Fixed(s)) - base) == Some(s)
    ensures Acceptable(n.cfg) <==> n.cfg.indexers <= 15
  {
    hide ServiceAt, OffsetOf;
    forall s ensures 0 <= OffsetOf(s) <= 702 && ServiceAt(OffsetOf(s)) == Some(s) {
      ServiceOffset(s);
    }
  }

  /** A named override wins, then one of Bitcart's four own, and only then the block's default. */
  lemma OverridePrecedence(n: Network, name: PortName)
    ensures name in n.cfg.overrides ==> PortOf(n, name) == n.cfg.overrides[name]
    ensures name !in n.cfg.overrides ==>
              && (name == Fixed(BitcartStorePublic) && n.cfg.bitcartStore.Some? ==>
                    PortOf(n, name) == n.cfg.bitcartStore.value)
              && (name == Fixed(BitcartAdminPublic) && n.cfg.bitcartAdmin.Some? ==>
                    PortOf(n, name) == n.cfg.bitcartAdmin.value)
              && (name == Fixed(BitcartApiPublic) && n.cfg.bitcartApi.Some? ==>
                    PortOf(n, name) == n.cfg.bitcartApi.value)
              && (name == Fixed(BitcartDaemon) && n.cfg.bitcartDaemon.Some? ==>
                    PortOf(n, name) == n.cfg.bitcartDaemon.value)
              && (name !in {Fixed(BitcartStorePublic), Fixed(BitcartAdminPublic), Fixed(BitcartApiPublic),
                            Fixed(BitcartDaemon)} ==>
                    PortOf(n, name) == 30000 + 1000 * n.key + Offset(name))
  {
    hide OffsetOf;
  }

  // -- the default layout ---------------------------------------------------------------

  /** A name that occupies a port, pool interiors included. */
  predicate Occupies(cfg: NetCfg, name: PortName) {
    Has(cfg, name) || (cfg.bitcart && (name.P2pPool? || name.GrpcPool?) && name.i < cfg.poolSize)
  }

  /** What configuration validation and the indexer limit allow. */
  predicate WithinLimits(cfg: NetCfg) {
    cfg.indexers <= FULCRUM_MAX && cfg.guardians <= MAX_GUARDIANS && 1 <= cfg.poolSize <= MAX_POOL
  }

  lemma ServiceOffset(s: Service)
    ensures ServiceAt(OffsetOf(s)) == Some(s)
    ensures OffsetOf(s) < FULCRUM_BASE || 100 <= OffsetOf(s) < P2P_POOL_BASE || 600 <= OffsetOf(s) <= 702
  {
  }

  /** The name at an offset of a block. */
  function NameAt(offset: int): Option<PortName> {
    if FULCRUM_BASE <= offset < 100 then
      var k := (offset - FULCRUM_BASE) % FULCRUM_STRIDE;
      Some(Fulcrum((offset - FULCRUM_BASE) / FULCRUM_STRIDE,
                   if k == 0 then ElectrumTcp else if k == 1 then ElectrumSsl else Admin))
    else if P2P_POOL_BASE <= offset < GRPC_POOL_BASE then Some(P2pPool(offset - P2P_POOL_BASE))
    else if GRPC_POOL_BASE <= offset < GUARDIAN_BASE then Some(GrpcPool(offset - GRPC_POOL_BASE))
    else if GUARDIAN_BASE <= offset < GATEWAY_BASE then
      var k := (offset - GUARDIAN_BASE) % GUARDIAN_STRIDE;
      Some(Guardian((offset - GUARDIAN_BASE) / GUARDIAN_STRIDE,
                    if k == 0 then ApiPublic else if k == 1 then Api else Ui))
    else if GATEWAY_BASE <= offset < 600 then
      Some(Gateway((offset - GATEWAY_BASE) / GATEWAY_STRIDE, (offset - GATEWAY_BASE) % GATEWAY_STRIDE == 1))
    else if ServiceAt(offset).Some? then Some(Fixed(ServiceAt(offset).value))
    else None
  }

  /** Every occupied name can be read back from its offset, which stays inside the block. */
  lemma OffsetDecides(cfg: NetCfg, name: PortName)
    requires WithinLimits(cfg) && Occupies(cfg, name)
    ensures 0 <= Offset(name) < BLOCK_SIZE && NameAt(Offset(name)) == Some(name)
  {
    hide OffsetOf, ServiceAt;
    if name.Fixed? {
      ServiceOffset(name.service);
    }
  }

  predicate NoOverrides(cfg: NetCfg) {
    && cfg.bitcartStore.None? && cfg.bitcartAdmin.None? && cfg.bitcartApi.None? && cfg.bitcartDaemon.None?
    && cfg.overrides == map[]
  }

  /** Enabled networks come once each, in the canonical order. */
  predicate Canonical(nets: seq<Network>) {
    && (forall i :: 0 <= i < |nets| ==> nets[i].key < NETWORKS)
    && (forall i, j :: 0 <= i < j < |nets| ==> nets[i].key < nets[j].key)
  }

  /** Two occupied names of the default layout, pool interiors included, never share a port. */
  lemma DefaultLayoutInjective(nets: seq<Network>, t: Tag, u: Tag)
    requires Canonical(nets) && t.net < |nets| && u.net < |nets|
    requires forall i :: 0 <= i < |nets| ==> NoOverrides(nets[i].cfg) && WithinLimits(nets[i].cfg)
    requires Occupies(nets[t.net].cfg, t.name) && Occupies(nets[u.net].cfg, u.name)
    requires PortAt(nets, t) == PortAt(nets, u)
    ensures t == u
  {
    hide Offset, NameAt, Occupies;
    OffsetDecides(nets[t.net].cfg, t.name);
    OffsetDecides(nets[u.net].cfg, u.name);
    BlocksApart(nets[t.net].key, Offset(t.name), nets[u.net].key, Offset(u.name));
  }

  lemma BlocksApart(k: nat, x: int, l: nat, y: int)
    requires 0 <= x < BLOCK_SIZE && 0 <= y < BLOCK_SIZE && BlockBase(k) + x == BlockBase(l) + y
    ensures k == l && x == y
  {
  }

  /** Without overrides every combination within the limits gets its ports. */
  lemma DefaultsAlwaysAllocate(nets: seq<Network>)
    requires Canonical(nets)
    requires forall i :: 0 <= i < |nets| ==> NoOverrides(nets[i].cfg) && WithinLimits(nets[i].cfg)
    ensures CollisionFree(nets) && forall i :: 0 <= i < |nets| ==> Acceptable(nets[i].cfg)
    ensures forall t :: Owns(nets, t) ==> BLOCK_BASE <= PortAt(nets, t) < BLOCK_BASE + NETWORKS * BLOCK_SIZE
  {
    hide Offset, PortOf;
    forall t, u | Owns(nets, t) && Owns(nets, u) && PortAt(nets, t) == PortAt(nets, u) ensures t == u {
      DefaultLayoutInjective(nets, t, u);
    }
    forall t | Owns(nets, t) ensures BLOCK_BASE <= PortAt(nets, t) < BLOCK_BASE + NETWORKS * BLOCK_SIZE {
      OffsetDecides(nets[t.net].cfg, t.name);
      DefaultPort(nets[t.net], t.name);
    }
  }

  lemma DefaultPort(n: Network, name: PortName)
    requires NoOverrides(n.cfg)
    ensures PortOf(n, name) == BlockBase(n.key) + Offset(name)
  {
  }

  // -- overrides and pools ------------------------------------------------------------------

  predicate IsPool(name: PortName) {
    name.P2pPool? || name.GrpcPool?
  }

  /**
    Where an occupied name really listens. Bitcart is told the pool bases of the block, so an
    override of a base changes the registered number and leaves the pool where it is.
   */
  function ListensAt(nets: seq<Network>, t: Tag): int
    requires t.net < |nets|
  {
    if IsPool(t.name) then BlockBase(nets[t.net].key) + Offset(t.name) else PortAt(nets, t)
  }

  predicate OccupiedBy(nets: seq<Network>, t: Tag) {
    t.net < |nets| && Occupies(nets[t.net].cfg, t.name)
  }

  /** No two services listen on one port, pools counted in full. */
  ghost predicate NobodyClashes(nets: seq<Network>) {
    forall t, u :: OccupiedBy(nets, t) && OccupiedBy(nets, u) && ListensAt(nets, t) == ListensAt(nets, u) ==> t == u
  }

  /** An assigned name that is not a pool base. */
  predicate OwnsService(nets: seq<Network>, t: Tag) {
    Owns(nets, t) && !IsPool(t.name)
  }

  /** No two services other than pools are assigned one port. */
  ghost predicate ServicesApart(nets: seq<Network>) {
    forall t, u :: OwnsService(nets, t) && OwnsService(nets, u) && PortAt(nets, t) == PortAt(nets, u) ==> t == u
  }

  /** The port lies in one of the two pools of a network with Bitcart. */
  predicate InPool(n: Network, port: int) {
    var offset := port - BlockBase(n.key);
    n.cfg.bitcart
    && (P2P_POOL_BASE <= offset < P2P_POOL_BASE + n.cfg.poolSize
        || GRPC_POOL_BASE <= offset < GRPC_POOL_BASE + n.cfg.poolSize)
  }

  /** No service is assigned a port of any network's pools. */
  ghost predicate PoolsClear(nets: seq<Network>) {
    forall t, i :: OwnsService(nets, t) && 0 <= i < |nets| ==> !InPool(nets[i], PortAt(nets, t))
  }

  /** The pool name that listens on a port of a network's pools. */
  function PoolTag(nets: seq<Network>, i: nat, port: int): Tag
    requires i < |nets| && InPool(nets[i], port)
  {
    var offset := port - BlockBase(nets[i].key);
    Tag(i, if offset < GRPC_POOL_BASE then P2pPool(offset - P2P_POOL_BASE) else GrpcPool(offset - GRPC_POOL_BASE))
  }

  lemma PoolTagListens(nets: seq<Network>, i: nat, port: int)
    requires i < |nets| && InPool(nets[i], port) && WithinLimits(nets[i].cfg)
    ensures var t := PoolTag(nets, i, port);
            OccupiedBy(nets, t) && IsPool(t.name) && ListensAt(nets, t) == port
  {
  }

  /** An occupied name is a service, on its assigned port, or a pool name, inside its pool. */
  lemma ServiceOrPool(nets: seq<Network>, t: Tag)
    requires OccupiedBy(nets, t) && WithinLimits(nets[t.net].cfg)
    ensures !IsPool(t.name) ==> OwnsService(nets, t) && ListensAt(nets, t) == PortAt(nets, t)
    ensures IsPool(t.name) ==> InPool(nets[t.net], ListensAt(nets, t))
  {
    hide PortOf, OffsetOf;
  }

  /** Pools of the canonical blocks never share a port. */
  lemma PoolsApart(nets: seq<Network>, t: Tag, u: Tag)
    requires Canonical(nets) && OccupiedBy(nets, t) && OccupiedBy(nets, u) && IsPool(t.name) && IsPool(u.name)
    requires WithinLimits(nets[t.net].cfg) && WithinLimits(nets[u.net].cfg)
    requires ListensAt(nets, t) == ListensAt(nets, u)
    ensures t == u
  {
    hide Offset, NameAt, Occupies;
    OffsetDecides(nets[t.net].cfg, t.name);
    OffsetDecides(nets[u.net].cfg, u.name);
    BlocksApart(nets[t.net].key, Offset(t.name), nets[u.net].key, Offset(u.name));
  }

  ghost predicate AllWithinLimits(nets: seq<Network>) {
    forall i :: 0 <= i < |nets| ==> WithinLimits(nets[i].cfg)
  }

  /**
    Whatever the overrides, no two services clash exactly when no two services other than
    pools are assigned one port and none is assigned a port of a pool.
   */
  lemma NobodyClashesIff(nets: seq<Network>)
    requires Canonical(nets) && AllWithinLimits(nets)
    ensures NobodyClashes(nets) <==> ServicesApart(nets) && PoolsClear(nets)
  {
    hide PortOf, Has, Occupies, ListensAt, PortAt, InPool, WithinLimits;
    if NobodyClashes(nets) {
      ClashFreeServices(nets);
      ClashFreePools(nets);
    }
    if ServicesApart(nets) && PoolsClear(nets) {
      forall t, u | OccupiedBy(nets, t) && OccupiedBy(nets, u) && ListensAt(nets, t) == ListensAt(nets, u)
        ensures t == u
      {
        ServiceOrPool(nets, t);
        ServiceOrPool(nets, u);
        if IsPool(t.name) && IsPool(u.name) {
          PoolsApart(nets, t, u);
        }
      }
    }
  }

  lemma ServiceListens(nets: seq<Network>, t: Tag)
    requires OwnsService(nets, t)
    ensures OccupiedBy(nets, t) && ListensAt(nets, t) == PortAt(nets, t)
  {
    hide PortOf, Offset;
  }

  lemma ClashFreeServices(nets: seq<Network>)
    requires NobodyClashes(nets)
    ensures ServicesApart(nets)
  {
    hide PortOf, Has, Occupies, ListensAt, PortAt;
    forall t, u | OwnsService(nets, t) && OwnsService(nets, u) && PortAt(nets, t) == PortAt(nets, u) ensures t == u {
      ServiceListens(nets, t);
      ServiceListens(nets, u);
    }
  }

  lemma ClashFreePools(nets: seq<Network>)
    requires NobodyClashes(nets) && AllWithinLimits(nets)
    ensures PoolsClear(nets)
  {
    hide PortOf, Has, Occupies, ListensAt, PortAt, InPool, WithinLimits, PoolTag;
    forall t, i | OwnsService(nets, t) && 0 <= i < |nets| ensures !InPool(nets[i], PortAt(nets, t)) {
      if InPool(nets[i], PortAt(nets, t)) {
        ServiceListens(nets, t);
        PoolTagListens(nets, i, PortAt(nets, t));
        assert false;
      }
    }
  }

  // -- what allocation makes of overrides ------------------------------------------------------

  /** A network that overrides no pool base. */
  predicate KeepsPoolBases(cfg: NetCfg) {
    P2pPool(0) !in cfg.overrides && GrpcPool(0) !in cfg.overrides
  }

  /** Allocation never refuses a configuration without clashes that leaves the pool bases alone. */
  lemma SafeIsAllocated(nets: seq<Network>)
    requires NobodyClashes(nets) && forall i :: 0 <= i < |nets| ==> KeepsPoolBases(nets[i].cfg)
    ensures CollisionFree(nets)
  {
    hide PortOf, Has, Occupies, ListensAt, PortAt, KeepsPoolBases;
    forall t, u | Owns(nets, t) && Owns(nets, u) && PortAt(nets, t) == PortAt(nets, u) ensures t == u {
      OwnedListens(nets, t);
      OwnedListens(nets, u);
    }
  }

  lemma OwnedListens(nets: seq<Network>, t: Tag)
    requires Owns(nets, t) && KeepsPoolBases(nets[t.net].cfg)
    ensures OccupiedBy(nets, t) && ListensAt(nets, t) == PortAt(nets, t)
  {
    hide OffsetOf;
  }

  /** Regtest with Bitcart, pools of five, and some overrides. */
  function Regtest(overrides: map<PortName, int>): seq<Network> {
    [Network(0, NetCfg(0, 0, true, 5, None, None, None, None, overrides))]
  }

  lemma RegtestDefault(overrides: map<PortName, int>, name: PortName)
    requires Has(Regtest(overrides)[0].cfg, name)
    ensures PortOf(Regtest(overrides)[0], name)
         == if name in overrides then overrides[name] else BLOCK_BASE + Offset(name)
    ensures 0 <= Offset(name) < BLOCK_SIZE && NameAt(Offset(name)) == Some(name)
  {
    hide Offset, NameAt;
    OffsetDecides(Regtest(overrides)[0].cfg, name);
  }

  /** Distinct overrides that avoid the remaining defaults never collide. */
  lemma OverridesApart(overrides: map<PortName, int>)
    requires forall a, b :: a in overrides && b in overrides && overrides[a] == overrides[b] ==> a == b
    requires forall a :: a in overrides ==> 0 <= overrides[a] - BLOCK_BASE < BLOCK_SIZE ==>
                match NameAt(overrides[a] - BLOCK_BASE)
                case Some(name) => name in overrides || !Has(Regtest(overrides)[0].cfg, name)
                case None => true
    ensures CollisionFree(Regtest(overrides))
  {
    hide Offset, NameAt, PortOf, Has;
    var nets := Regtest(overrides);
    forall t, u | Owns(nets, t) && Owns(nets, u) && PortAt(nets, t) == PortAt(nets, u) ensures t == u {
      RegtestDefault(overrides, t.name);
      RegtestDefault(overrides, u.name);
    }
  }

  lemma ShareAPort(nets: seq<Network>, a: PortName, b: PortName)
    requires nets != [] && Occupies(nets[0].cfg, a) && Occupies(nets[0].cfg, b) && a != b
    requires ListensAt(nets, Tag(0, a)) == ListensAt(nets, Tag(0, b))
    ensures !NobodyClashes(nets)
  {
    hide ListensAt, Occupies;
    assert OccupiedBy(nets, Tag(0, a)) && OccupiedBy(nets, Tag(0, b));
  }

  /** An override of one Lightning port that allocation accepts and that lands inside a pool. */
  lemma OverrideIntoPool()
    ensures var nets := Regtest(map[Fixed(LndP2p) := 30403]);
            Acceptable(nets[0].cfg) && CollisionFree(nets) && !NobodyClashes(nets)
  {
    OverridesApart(map[Fixed(LndP2p) := 30403]);
    ShareAPort(Regtest(map[Fixed(LndP2p) := 30403]), P2pPool(3), Fixed(LndP2p));
  }

  /** An overridden base frees its number for another service, while the pool still listens there. */
  lemma MovedBaseHidesClash()
    ensures var nets := Regtest(map[P2pPool(0) := 45000, Fixed(LndP2p) := 30400]);
            Acceptable(nets[0].cfg) && CollisionFree(nets) && !NobodyClashes(nets)
  {
    OverridesApart(map[P2pPool(0) := 45000, Fixed(LndP2p) := 30400]);
    ShareAPort(Regtest(map[P2pPool(0) := 45000, Fixed(LndP2p) := 30400]), P2pPool(0), Fixed(LndP2p));
  }

  /** And a base overridden onto another service is refused although nothing would clash. */
  lemma MovedBaseFalseAlarm()
    ensures var nets := Regtest(map[P2pPool(0) := 30010]);
            Acceptable(nets[0].cfg) && !CollisionFree(nets) && NobodyClashes(nets)
  {
    var overrides: map<PortName, int> := map[P2pPool(0) := 30010];
    var nets := Regtest(overrides);
    assert Owns(nets, Tag(0, P2pPool(0))) && Owns(nets, Tag(0, Fixed(LndP2p)));
    assert PortAt(nets, Tag(0, P2pPool(0))) == PortAt(nets, Tag(0, Fixed(LndP2p)));
    ServicesByDefault(overrides);
    NobodyClashesIff(nets);
  }

  /** Where only pool bases are overridden, services keep their ports and stay out of the pools. */
  lemma ServicesByDefault(overrides: map<PortName, int>)
    requires forall name :: name in overrides ==> IsPool(name)
    ensures ServicesApart(Regtest(overrides)) && PoolsClear(Regtest(overrides))
  {
    hide Offset, PortOf, Has;
    var nets := Regtest(overrides);
    forall t | OwnsService(nets, t) ensures !InPool(nets[0], PortAt(nets, t)) {
      RegtestDefault(overrides, t.name);
    }
    forall t, u | OwnsService(nets, t) && OwnsService(nets, u) && PortAt(nets, t) == PortAt(nets, u) ensures t == u {
      RegtestDefault(overrides, t.name);
      RegtestDefault(overrides, u.name);
    }
  }
}
