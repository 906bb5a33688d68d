/**
 * ContainerResource: resolves the container id from three extractors (ECS, then cgroup v1,
 * then cgroup v2), wraps it as the resource attribute container.id, and builds that resource
 * once, at class initialisation, for every later call of get().
 */
module ContainerResource {
  import opened Wrappers
  import opened ProcFilesystem
  import Ecs = EcsContainerIdExtractor

  /** ResourceAttributes.CONTAINER_ID */
  const CONTAINER_ID: string := "container.id"

  /** The part of an OpenTelemetry Resource built here: its string attributes. */
  datatype Resource = Resource(attributes: map<string, string>)

  /** Resource.empty() */
  const EMPTY: Resource := Resource(map[])

  /** getContainerId's choice: the ECS result if present, else the v1 result if present, else the v2 result. */
  function SelectContainerId(ecsResult: Option<string>, v1Result: Option<string>, v2Result: Option<string>): (r: Option<string>)
    ensures r.Some? <==> ecsResult.Some? || v1Result.Some? || v2Result.Some?
    ensures r.Some? ==> r == ecsResult || r == v1Result || r == v2Result
  {
    if ecsResult.Some? then ecsResult
    else if v1Result.Some? then v1Result
    else v2Result
  }

  /** The first present entry of a list of results, in list order: a reference for the precedence. */
  function FirstPresent(results: seq<Option<string>>): (r: Option<string>)
    ensures r.Some? ==> exists k :: 0 <= k < |results| && results[k] == r && forall j :: 0 <= j < k ==> results[j].None?
    ensures r.None? <==> forall k :: 0 <= k < |results| ==> results[k].None?
  {
    if results == [] then None
    else if results[0].Some? then results[0]
    else
      var r := FirstPresent(results[1..]);
      assert r.Some? ==> exists k :: 0 <= k < |results| && results[k] == r && forall j :: 0 <= j < k ==> results[j].None? by {
        if r.Some? {
          var k :| 0 <= k < |results[1..]| && results[1..][k] == r && forall j :: 0 <= j < k ==> results[1..][j].None?;
          assert results[k + 1] == r;
          forall j | 0 <= j < k + 1 ensures results[j].None? {
            if j > 0 {
              assert results[j] == results[1..][j - 1];
            }
          }
        }
      }
      r
  }

  /** The precedence is "first present in the order ECS, v1, v2". */
  lemma SelectIsFirstPresent(ecsResult: Option<string>, v1Result: Option<string>, v2Result: Option<string>)
    ensures SelectContainerId(ecsResult, v1Result, v2Result) == FirstPresent([ecsResult, v1Result, v2Result])
  {
    var rs := [ecsResult, v1Result, v2Result];
    assert rs[1..] == [v1Result, v2Result];
    assert rs[1..][1..] == [v2Result];
    assert rs[1..][1..][1..] == [];
    assert FirstPresent(rs[1..][1..]) == v2Result by {
      assert FirstPresent(rs[1..][1..][1..]) == None;
    }
  }

  /** A present ECS result wins, whatever v1 and v2 found. */
  lemma EcsTakesPrecedence(ecsResult: Option<string>, v1Result: Option<string>, v2Result: Option<string>)
    requires ecsResult.Some?
    ensures SelectContainerId(ecsResult, v1Result, v2Result) == ecsResult
  {
  }

  /** With no ECS result, a present v1 result wins over v2. */
  lemma CgroupV1WithoutEcs(ecsResult: Option<string>, v1Result: Option<string>, v2Result: Option<string>)
    requires ecsResult.None? && v1Result.Some?
    ensures SelectContainerId(ecsResult, v1Result, v2Result) == v1Result
  {
  }

  /** With neither ECS nor v1, the v2 result is used as it is, absent or not. */
  lemma CgroupV2AsLastResort(ecsResult: Option<string>, v1Result: Option<string>, v2Result: Option<string>)
    requires ecsResult.None? && v1Result.None?
    ensures SelectContainerId(ecsResult, v1Result, v2Result) == v2Result
  {
  }

  /**
   * buildResource's wrapping: Resource.create(Attributes.of(CONTAINER_ID, id)) for a present
   * id, Resource.empty() otherwise.
   */
  function ResourceFor(id: Option<string>): (r: Resource)
    ensures r.attributes.Keys <= {CONTAINER_ID}
    ensures CONTAINER_ID in r.attributes <==> id.Some?
    ensures id.Some? ==> r.attributes[CONTAINER_ID] == id.value
  {
    match id
    case Some(v) => Resource(map[CONTAINER_ID := v])
    case None => EMPTY
  }

  /** The container id a resource carries, if any. */
  function ContainerIdOf(r: Resource): (id: Option<string>) {
    if CONTAINER_ID in r.attributes then Some(r.attributes[CONTAINER_ID]) else None
  }

  /**
   * Wrapping loses nothing and adds nothing: the id is read back from the resource, and a
   * resource that carries no id is the empty one.
   */
  lemma ResourceForRoundTrip(id: Option<string>)
    ensures ContainerIdOf(ResourceFor(id)) == id
    ensures id.None? <==> ResourceFor(id) == EMPTY
    ensures id.Some? ==> ResourceFor(id).attributes == map[CONTAINER_ID := id.value]
  {
    if id.Some? {
      assert CONTAINER_ID in ResourceFor(id).attributes;
    }
  }

  /** The resource a host yields: the precedence over the three extractors' results, wrapped. */
  function ResolvedResource(host: Filesystem, v1Result: Option<string>, v2Result: Option<string>): (r: Resource)
    ensures ContainerIdOf(r) == SelectContainerId(Ecs.ExtractContainerId(host), v1Result, v2Result)
  {
    ResourceForRoundTrip(SelectContainerId(Ecs.ExtractContainerId(host), v1Result, v2Result));
    ResourceFor(SelectContainerId(Ecs.ExtractContainerId(host), v1Result, v2Result))
  }

  /**
   * A CgroupV1ContainerIdExtractor or CgroupV2ContainerIdExtractor. How they read the host is
   * not part of this model: each stands for the result it yields, and counts its calls.
   */
  class CgroupExtractor {
    const result: Option<string>
    var calls: nat

    constructor (result: Option<string>)
      ensures this.result == result && calls == 0
    {
      this.result := result;
      calls := 0;
    }

    method ExtractContainerId() returns (r: Option<string>)
      modifies this
      ensures r == result
      ensures calls == old(calls) + 1
    {
      r := result;
      calls := calls + 1;
    }
  }

  class ContainerResource {
    const ecsExtractor: Ecs.EcsExtractor
    const v1Extractor: CgroupExtractor
    const v2Extractor: CgroupExtractor

    /** The v1 and v2 extractors are distinct objects (in Java they are of distinct classes). */
    ghost predicate Valid() {
      v1Extractor != v2Extractor
    }

    /** The constructor visible for testing: stores the three extractors. */
    constructor (ecsExtractor: Ecs.EcsExtractor, v1Extractor: CgroupExtractor, v2Extractor: CgroupExtractor)
      requires v1Extractor != v2Extractor
      ensures Valid()
      ensures this.ecsExtractor == ecsExtractor && this.v1Extractor == v1Extractor && this.v2Extractor == v2Extractor
    {
      this.ecsExtractor := ecsExtractor;
      this.v1Extractor := v1Extractor;
      this.v2Extractor := v2Extractor;
    }

    /**
     * The private constructor: fresh extractors over the host's filesystem, the cgroup ones
     * yielding the results given for this host.
     */
    constructor Default(host: Filesystem, v1Result: Option<string>, v2Result: Option<string>)
      ensures Valid()
      ensures fresh(ecsExtractor) && fresh(v1Extractor) && fresh(v2Extractor)
      ensures ecsExtractor.filesystem == host && v1Extractor.result == v1Result && v2Extractor.result == v2Result
      ensures ecsExtractor.calls == 0 && v1Extractor.calls == 0 && v2Extractor.calls == 0
    {
      ecsExtractor := new Ecs.EcsExtractor(host);
      v1Extractor := new CgroupExtractor(v1Result);
      v2Extractor := new CgroupExtractor(v2Result);
    }

    /** The id the precedence picks from what the three extractors yield. */
    ghost function ExpectedId(): Option<string> {
      SelectContainerId(Ecs.ExtractContainerId(ecsExtractor.filesystem), v1Extractor.result, v2Extractor.result)
    }

    /**
     * getContainerId: calls each of the three extractors exactly once, then keeps the first
     * present result in the order ECS, v1, v2.
     */
    method GetContainerId() returns (id: Option<string>)
      requires Valid()
      modifies ecsExtractor, v1Extractor, v2Extractor
      ensures id == ExpectedId()
      ensures ecsExtractor.calls == old(ecsExtractor.calls) + 1
      ensures v1Extractor.calls == old(v1Extractor.calls) + 1
      ensures v2Extractor.calls == old(v2Extractor.calls) + 1
    {
      var ecsResult := ecsExtractor.ExtractContainerId();
      var v1Result := v1Extractor.ExtractContainerId();
      var v2Result := v2Extractor.ExtractContainerId();
      id := SelectContainerId(ecsResult, v1Result, v2Result);
    }

    /** buildResource: the resolved id as the container.id attribute, or the empty resource. */
    method BuildResource() returns (r: Resource)
      requires Valid()
      modifies ecsExtractor, v1Extractor, v2Extractor
      ensures r == ResourceFor(ExpectedId())
      ensures ecsExtractor.calls == old(ecsExtractor.calls) + 1
      ensures v1Extractor.calls == old(v1Extractor.calls) + 1
      ensures v2Extractor.calls == old(v2Extractor.calls) + 1
    {
      var id := GetContainerId();
      r := ResourceFor(id);
    }
  }

  /**
   * buildSingleton: new ContainerResource().buildResource(), with the object it used, whose
   * extractors have each been called exactly once.
   */
  method BuildSingleton(host: Filesystem, v1Result: Option<string>, v2Result: Option<string>)
    returns (r: Resource, ghost resolver: ContainerResource)
    ensures r == ResolvedResource(host, v1Result, v2Result)
    ensures fresh(resolver.ecsExtractor) && fresh(resolver.v1Extractor) && fresh(resolver.v2Extractor)
    ensures resolver.ecsExtractor.filesystem == host
    ensures resolver.v1Extractor.result == v1Result && resolver.v2Extractor.result == v2Result
    ensures resolver.ecsExtractor.calls == 1 && resolver.v1Extractor.calls == 1 && resolver.v2Extractor.calls == 1
  {
    var cr := new ContainerResource.Default(host, v1Result, v2Result);
    r := cr.BuildResource();
    resolver := cr;
  }

  /**
   * The static state of ContainerResource: FILESYSTEM_INSTANCE and INSTANCE. Constructing it
   * is class initialisation, which runs buildSingleton once; get() only returns INSTANCE.
   */
  class Statics {
    const FILESYSTEM_INSTANCE: Filesystem
    const cgroupV1Result: Option<string>
    const cgroupV2Result: Option<string>
    const INSTANCE: Resource
    /** The ContainerResource that buildSingleton used. */
    ghost const builder: ContainerResource

    /**
     * INSTANCE is the resource the host resolves to, and building it called each extractor
     * exactly once.
     */
    ghost predicate Valid()
      reads builder.ecsExtractor, builder.v1Extractor, builder.v2Extractor
    {
      && INSTANCE == ResolvedResource(FILESYSTEM_INSTANCE, cgroupV1Result, cgroupV2Result)
      && builder.ecsExtractor.filesystem == FILESYSTEM_INSTANCE
      && builder.v1Extractor.result == cgroupV1Result
      && builder.v2Extractor.result == cgroupV2Result
      && builder.ecsExtractor.calls == 1 && builder.v1Extractor.calls == 1 && builder.v2Extractor.calls == 1
    }

    constructor (host: Filesystem, v1Result: Option<string>, v2Result: Option<string>)
      ensures Valid()
      ensures FILESYSTEM_INSTANCE == host && cgroupV1Result == v1Result && cgroupV2Result == v2Result
    {
      FILESYSTEM_INSTANCE := host;
      cgroupV1Result := v1Result;
      cgroupV2Result := v2Result;
      var r, b := BuildSingleton(host, v1Result, v2Result);
      INSTANCE := r;
      builder := b;
    }

    /** get(): the resource built at initialisation, with no extractor run again. */
    method Get() returns (r: Resource)
      requires Valid()
      ensures Valid()
      ensures r == INSTANCE
      ensures r == ResolvedResource(FILESYSTEM_INSTANCE, cgroupV1Result, cgroupV2Result)
    {
      r := INSTANCE;
    }
  }

  /**
   * Two calls of get() return the same resource, and the extractors have still run exactly
   * once each.
   */
  method GetTwice(statics: Statics) returns (first: Resource, second: Resource)
    requires statics.Valid()
    ensures first == second == ResolvedResource(statics.FILESYSTEM_INSTANCE, statics.cgroupV1Result, statics.cgroupV2Result)
    ensures statics.builder.ecsExtractor.calls == 1
    ensures statics.builder.v1Extractor.calls == 1
    ensures statics.builder.v2Extractor.calls == 1
  {
    first := statics.Get();
    second := statics.Get();
  }

  /** A host whose cpuset file holds a Fargate line resolves to that id, whatever v1 and v2 find. */
  lemma FargateHostScenario(host: Filesystem, v1Result: Option<string>, v2Result: Option<string>)
    requires host.IsReadable(Ecs.ECS_CGROUP_PATH)
    requires host.Lines(Ecs.ECS_CGROUP_PATH) == Success(["/docker/" + Ecs.FARGATE_ID])
    ensures ResolvedResource(host, v1Result, v2Result) == Resource(map[CONTAINER_ID := Ecs.FARGATE_ID])
  {
    Ecs.FargateLineExample(host);
  }

  /** A host where nothing is readable and no cgroup extractor finds anything yields the empty resource. */
  lemma BareHostScenario()
    ensures ResolvedResource(Filesystem({}, map[]), None, None) == EMPTY
  {
  }

  /** A readable but empty cpuset file falls through to the cgroup v1 result. */
  lemma EmptyCpusetFallsThroughToV1(host: Filesystem, v1Id: string, v2Result: Option<string>)
    requires host.IsReadable(Ecs.ECS_CGROUP_PATH)
    requires host.Lines(Ecs.ECS_CGROUP_PATH) == Success([])
    ensures ResolvedResource(host, Some(v1Id), v2Result) == Resource(map[CONTAINER_ID := v1Id])
  {
  }
}
