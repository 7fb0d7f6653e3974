/**
 * The `Network` record of metawards and the orchestration around it:
 * `Network.build` hands the capacity ceilings to a build function, then
 * optionally adds distances and attaches a seed list; `add_distances` runs
 * a distance function, reads the memoised (min, max) link distance pair and
 * sets the dynamic distance cutoff to one more than the maximum.
 *
 * The helpers that do the actual work (`build_wards_network`,
 * `add_wards_network_distance`, `get_min_max_distances`, `read_done_file`)
 * are not part of this model: they are total functions gathered in `Utils`,
 * with no body specified. Every call into them is recorded in a `Call`
 * trace, so that which helper runs, how often and in what order can be stated.
 */
module Networks {
  import opened Wrappers

  /** A ward; its contents are the build function's business and are not modelled. */
  datatype Node = Node(population: int, position: Option<(real, real)>)

  /** A link between two wards; its contents are the helpers' business and are not modelled. */
  datatype Link = Link(ifrom: int, ito: int, weight: real, distance: Option<real>)

  /** The parts of the run parameters this core reads and writes. */
  datatype Parameters = Parameters(seedFile: Option<string>, dynDistCutoff: real)

  /** Python's truth test on `params.input_files.seed`: neither `None` nor the empty path. */
  function SeedConfigured(params: Parameters): (b: bool)
    ensures b <==> params.seedFile !in {None, Some("")}
  {
    params.seedFile.Some? && params.seedFile.value != ""
  }

  /** Default node and link ceilings, shared by the record fields and `build`. */
  const DefaultMaxNodes: int := 10050
  const DefaultMaxLinks: int := 2414000

  /** The fields of the `Network` dataclass; `None` is a table not yet built. */
  datatype Network = Network(
    nodes: Option<seq<Node>>,
    toLinks: Option<seq<Link>>,
    play: Option<seq<Link>>,
    weekend: Option<seq<Link>>,
    nnodes: int,
    nlinks: int,
    plinks: int,
    maxNodes: int,
    maxLinks: int,
    toSeed: Option<seq<int>>,
    params: Option<Parameters>)

  /** `Network()` with every field at its default. */
  function NewNetwork(): (n: Network)
    ensures n.nnodes == 0 && n.nlinks == 0 && n.plinks == 0
    ensures n.nodes.None? && n.toLinks.None? && n.play.None? && n.weekend.None?
    ensures n.toSeed.None? && n.params.None?
    ensures n.maxNodes == DefaultMaxNodes && n.maxLinks == DefaultMaxLinks
  {
    Network(None, None, None, None, 0, 0, 0, 10050, 2414000, None, None)
  }

  /** The smallest and largest link distance. */
  datatype MinMax = MinMax(min: real, max: real)

  /**
   * A `Network` object: its dataclass fields and the memo attribute
   * `_min_max_distances`, which is absent until first read and never removed.
   */
  datatype NetworkState = NetworkState(network: Network, minMaxMemo: Option<MinMax>)

  type BuildFunction = (Parameters, int, int) -> Network
  type DistanceFunction = Network -> Network

  /** The default helpers of the `_utils` package. */
  datatype Utils = Utils(
    buildWardsNetwork: BuildFunction,
    addWardsNetworkDistance: DistanceFunction,
    getMinMaxDistances: Network -> MinMax,
    readDoneFile: string -> seq<int>)

  /** One call into a helper; `custom` tells a caller-supplied function from the default. */
  datatype Call =
    | BuildCall(custom: bool, maxNodes: int, maxLinks: int)
    | DistanceCall(custom: bool)
    | MinMaxCall
    | ReadSeedCall(path: string)

  /** A network object after an operation, and the helper calls the operation made. */
  datatype Run = Run(state: NetworkState, calls: seq<Call>)

  /** `add_distances` writes `self.params.dyn_dist_cutoff`, which raises when `params` is `None`. */
  datatype Error = MissingParameters

  /** The result of `get_min_max_distances`: the pair, the object afterwards, the calls made. */
  datatype Lookup = Lookup(pair: MinMax, after: NetworkState, calls: seq<Call>)

  /**
   * `get_min_max_distances()`: a stored pair is returned without calling the
   * helper; otherwise the helper computes the pair once and it is stored.
   * The network itself is never changed.
   */
  function GetMinMaxDistances(st: NetworkState, utils: Utils): (r: Lookup)
    ensures r.after.network == st.network
    ensures r.after.minMaxMemo == Some(r.pair)
    ensures st.minMaxMemo.Some? ==> r.pair == st.minMaxMemo.value && r.calls == []
    ensures st.minMaxMemo.None? ==> r.pair == utils.getMinMaxDistances(st.network) && r.calls == [MinMaxCall]
  {
    match st.minMaxMemo
    case Some(pair) => Lookup(pair, st, [])
    case None =>
      var pair := utils.getMinMaxDistances(st.network);
      Lookup(pair, NetworkState(st.network, Some(pair)), [MinMaxCall])
  }

  /** Two reads in a row give the same pair, and the second calls no helper. */
  lemma MinMaxIsMemoised(st: NetworkState, utils: Utils)
    ensures var first := GetMinMaxDistances(st, utils);
            var second := GetMinMaxDistances(first.after, utils);
            second.pair == first.pair && second.after == first.after && second.calls == []
  {
  }

  /** The distance function `add_distances` runs: the one given, else the default helper. */
  function ChosenDistance(distanceFunction: Option<DistanceFunction>, utils: Utils): (f: DistanceFunction)
    ensures distanceFunction.Some? ==> f == distanceFunction.value
    ensures distanceFunction.None? ==> f == utils.addWardsNetworkDistance
  {
    match distanceFunction
    case Some(f) => f
    case None => utils.addWardsNetworkDistance
  }

  /** `b` is `a` with at most the dynamic distance cutoff of its parameters changed. */
  predicate SameExceptCutoff(a: Network, b: Network) {
    && a.params.Some? && b.params.Some?
    && b == a.(params := b.params)
    && b.params.value == a.params.value.(dynDistCutoff := b.params.value.dynDistCutoff)
  }

  /**
   * `add_distances(distance_function)`: runs the distance function once (the
   * default helper when none is given), then reads the min/max pair, served
   * from the memo when it is already there, and sets the cutoff to the
   * maximum plus one. Fails when the network has no parameters to write to.
   */
  function AddDistances(st: NetworkState, distanceFunction: Option<DistanceFunction>, utils: Utils): (r: Result<Run, Error>)
    ensures var measured := ChosenDistance(distanceFunction, utils)(st.network);
            r.Success? <==> measured.params.Some?
    ensures r.Success? ==>
              && r.value.state.minMaxMemo.Some?
              && r.value.state.network.params.Some?
              && r.value.state.network.params.value.dynDistCutoff == r.value.state.minMaxMemo.value.max + 1.0
    ensures r.Success? && st.minMaxMemo.Some? ==> r.value.state.minMaxMemo == st.minMaxMemo
    ensures r.Success? && st.minMaxMemo.None? ==>
              var measured := ChosenDistance(distanceFunction, utils)(st.network);
              r.value.state.minMaxMemo == Some(utils.getMinMaxDistances(measured))
    ensures r.Success? ==> SameExceptCutoff(ChosenDistance(distanceFunction, utils)(st.network), r.value.state.network)
    ensures r.Success? ==>
              && |r.value.calls| > 0
              && r.value.calls[0] == DistanceCall(distanceFunction.Some?)
              && (forall i :: 0 < i < |r.value.calls| ==> r.value.calls[i] == MinMaxCall)
              && (MinMaxCall in r.value.calls <==> st.minMaxMemo.None?)
              && |r.value.calls| == (if st.minMaxMemo.None? then 2 else 1)
  {
    var measured := ChosenDistance(distanceFunction, utils)(st.network);
    var lookup := GetMinMaxDistances(NetworkState(measured, st.minMaxMemo), utils);
    match lookup.after.network.params
    case None => Failure(MissingParameters)
    case Some(p) =>
      var updated := lookup.after.network.(params := Some(p.(dynDistCutoff := lookup.pair.max + 1.0)));
      Success(Run(NetworkState(updated, lookup.after.minMaxMemo), [DistanceCall(distanceFunction.Some?)] + lookup.calls))
  }

  /**
   * A second `add_distances` keeps the pair the first one stored: it calls the
   * min/max helper no more, and the cutoff it writes comes from that pair
   * even when the second distance function changed the distances.
   */
  lemma RepeatedAddDistancesReusesPair(st: NetworkState, first: Option<DistanceFunction>,
                                       second: Option<DistanceFunction>, utils: Utils)
    requires AddDistances(st, first, utils).Success?
    requires AddDistances(AddDistances(st, first, utils).value.state, second, utils).Success?
    ensures var once := AddDistances(st, first, utils).value;
            var twice := AddDistances(once.state, second, utils).value;
            && twice.state.minMaxMemo == once.state.minMaxMemo
            && twice.state.network.params.value.dynDistCutoff == once.state.minMaxMemo.value.max + 1.0
            && MinMaxCall !in twice.calls
  {
  }

  /** The network the build function returns, with no memo yet. */
  function Construct(params: Parameters, buildFunction: Option<BuildFunction>,
                     maxNodes: int, maxLinks: int, utils: Utils): (r: Run)
    ensures r.calls == [BuildCall(buildFunction.Some?, maxNodes, maxLinks)]
    ensures r.state.minMaxMemo.None?
    ensures buildFunction.None? ==> r.state.network == utils.buildWardsNetwork(params, maxNodes, maxLinks)
    ensures buildFunction.Some? ==> r.state.network == buildFunction.value(params, maxNodes, maxLinks)
  {
    var network := match buildFunction
      case Some(f) => f(params, maxNodes, maxLinks)
      case None => utils.buildWardsNetwork(params, maxNodes, maxLinks);
    Run(NetworkState(network, None), [BuildCall(buildFunction.Some?, maxNodes, maxLinks)])
  }

  /**
   * The seeding step of `build`: with a seed file configured, `to_seed` becomes
   * exactly the list read from it and nothing else changes; without one,
   * nothing changes at all.
   */
  function AttachSeeds(run: Run, params: Parameters, utils: Utils): (r: Run)
    ensures !SeedConfigured(params) ==> r == run
    ensures SeedConfigured(params) ==>
              && r.state.network.toSeed == Some(utils.readDoneFile(params.seedFile.value))
              && r.state.network.(toSeed := run.state.network.toSeed) == run.state.network
              && r.state.minMaxMemo == run.state.minMaxMemo
              && r.calls == run.calls + [ReadSeedCall(params.seedFile.value)]
  {
    if SeedConfigured(params) then
      var path := params.seedFile.value;
      var seeds := utils.readDoneFile(path);
      Run(NetworkState(run.state.network.(toSeed := Some(seeds)), run.state.minMaxMemo),
          run.calls + [ReadSeedCall(path)])
    else
      run
  }

  /** `calls` contains a call to a distance function. */
  predicate HasDistanceCall(calls: seq<Call>) {
    exists i :: 0 <= i < |calls| && calls[i].DistanceCall?
  }

  /**
   * `Network.build(params, calculate_distances, build_function,
   * distance_function, max_nodes, max_links)`.
   */
  function Build(params: Parameters, calculateDistances: bool,
                 buildFunction: Option<BuildFunction>, distanceFunction: Option<DistanceFunction>,
                 maxNodes: int, maxLinks: int, utils: Utils): (r: Result<Run, Error>)
    ensures r.Failure? ==> calculateDistances
    ensures r.Success? ==>
              |r.value.calls| > 0 && r.value.calls[0] == BuildCall(buildFunction.Some?, maxNodes, maxLinks)
    ensures r.Success? ==> (HasDistanceCall(r.value.calls) <==> calculateDistances)
    ensures r.Success? && calculateDistances ==>
              && r.value.state.minMaxMemo.Some?
              && r.value.state.network.params.Some?
              && r.value.state.network.params.value.dynDistCutoff == r.value.state.minMaxMemo.value.max + 1.0
    ensures r.Success? && !calculateDistances ==> r.value.state.minMaxMemo.None?
    ensures r.Success? && SeedConfigured(params) ==>
              r.value.state.network.toSeed == Some(utils.readDoneFile(params.seedFile.value))
    ensures r.Success? ==> (SeedConfigured(params) <==> exists i :: 0 <= i < |r.value.calls| && r.value.calls[i].ReadSeedCall?)
    ensures var built := Construct(params, buildFunction, maxNodes, maxLinks, utils).state.network;
            var measured := ChosenDistance(distanceFunction, utils)(built);
            && (r.Success? <==> !calculateDistances || measured.params.Some?)
            && (r.Success? && calculateDistances ==>
                  && r.value.state.minMaxMemo == Some(utils.getMinMaxDistances(measured))
                  && SameExceptCutoff(measured, r.value.state.network.(toSeed := measured.toSeed)))
            && (r.Success? && !calculateDistances ==> r.value.state.network.(toSeed := built.toSeed) == built)
  {
    var built := Construct(params, buildFunction, maxNodes, maxLinks, utils);
    if !calculateDistances then
      var seeded := AttachSeeds(built, params, utils);
      assert SeedConfigured(params) ==> seeded.calls[|seeded.calls| - 1].ReadSeedCall?;
      Success(seeded)
    else
      match AddDistances(built.state, distanceFunction, utils)
      case Failure(e) => Failure(e)
      case Success(measured) =>
        var seeded := AttachSeeds(Run(measured.state, built.calls + measured.calls), params, utils);
        assert seeded.calls[1].DistanceCall?;
        assert SeedConfigured(params) ==> seeded.calls[|seeded.calls| - 1].ReadSeedCall?;
        Success(seeded)
  }

  /**
   * The helper calls of a successful `build`, in order: the build function
   * with the ceilings as given; when distances are calculated, the distance
   * function and then the min/max helper (the new network has no memo); when
   * a seed file is configured, the seed reader on that file, last.
   */
  lemma BuildCallOrder(params: Parameters, calculateDistances: bool,
                       buildFunction: Option<BuildFunction>, distanceFunction: Option<DistanceFunction>,
                       maxNodes: int, maxLinks: int, utils: Utils)
    requires Build(params, calculateDistances, buildFunction, distanceFunction, maxNodes, maxLinks, utils).Success?
    ensures Build(params, calculateDistances, buildFunction, distanceFunction, maxNodes, maxLinks, utils).value.calls
            == [BuildCall(buildFunction.Some?, maxNodes, maxLinks)]
               + (if calculateDistances then [DistanceCall(distanceFunction.Some?), MinMaxCall] else [])
               + (if SeedConfigured(params) then [ReadSeedCall(params.seedFile.value)] else [])
  {
  }

  /**
   * Without a seed file, `build` leaves `to_seed` as the build function (and the
   * distance function, when distances are on) left it; with distances off the
   * network is exactly the one the build function returned.
   */
  lemma UnseededBuildKeepsToSeed(params: Parameters, calculateDistances: bool,
                                 buildFunction: Option<BuildFunction>, distanceFunction: Option<DistanceFunction>,
                                 maxNodes: int, maxLinks: int, utils: Utils)
    requires !SeedConfigured(params)
    requires Build(params, calculateDistances, buildFunction, distanceFunction, maxNodes, maxLinks, utils).Success?
    ensures var built := Construct(params, buildFunction, maxNodes, maxLinks, utils).state.network;
            var final := Build(params, calculateDistances, buildFunction, distanceFunction, maxNodes, maxLinks, utils).value.state.network;
            && (calculateDistances ==> final.toSeed == ChosenDistance(distanceFunction, utils)(built).toSeed)
            && (!calculateDistances ==> final == built)
  {
  }

  /**
   * `Network.build(params)` with every default: the default helpers, distances
   * calculated, and the same node and link ceilings as a default `Network()`.
   */
  function BuildWithDefaults(params: Parameters, utils: Utils): (r: Result<Run, Error>)
    ensures r.Success? ==> |r.value.calls| > 0 && r.value.calls[0] == BuildCall(false, NewNetwork().maxNodes, NewNetwork().maxLinks)
    ensures r.Success? ==> DistanceCall(false) in r.value.calls
    ensures r.Failure? <==> utils.addWardsNetworkDistance(utils.buildWardsNetwork(params, DefaultMaxNodes, DefaultMaxLinks)).params.None?
  {
    var r := Build(params, true, None, None, DefaultMaxNodes, DefaultMaxLinks, utils);
    if r.Failure? then r
    else
      BuildCallOrder(params, true, None, None, DefaultMaxNodes, DefaultMaxLinks, utils);
      r
  }
}
