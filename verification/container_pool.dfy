/**
 The `container_pool` memo cache of `get_or_create_container` in
 backend/core/docker_executor.py. Container creation is a parameter.
 */
module ContainerPool {
  import opened Wrappers
  import opened Sandbox

  /** The arguments of `get_or_create_container`. */
  datatype ContainerRequest = ContainerRequest(filePath: string, language: string, useGvisor: bool)

  /** The pool after the call, and the container handed back. */
  datatype PoolStep<K> = PoolStep(pool: map<K, Container>, container: Container)

  /** True when `c` was started with exactly the arguments `q` asks for (whatever its name). */
  predicate MatchesRequest(c: Container, q: ContainerRequest)
  {
    c.spec == ContainerSpecFor(q.filePath, q.language, q.useGvisor, c.spec.name)
  }

  /** A creator that only ever returns containers started for the request it was given. */
  ghost predicate FaithfulCreator(create: ContainerRequest -> Result<Container, string>)
  {
    forall q :: create(q).Ok? ==> MatchesRequest(create(q).value, q)
  }

  /** The lookup-or-create step, for any choice of pool key. */
  function GetOrCreate<K>(pool: map<K, Container>, key: K, req: ContainerRequest,
                          create: ContainerRequest -> Result<Container, string>): (r: Result<PoolStep<K>, string>)
  {
    if key in pool then Ok(PoolStep(pool, pool[key]))
    else
      match create(req)
      case Err(e) => Err(e)
      case Ok(c) => Ok(PoolStep(pool[key := c], c))
  }

  /** How Python formats the `use_gvisor` flag. */
  function FlagText(g: bool): string
  {
    if g then "True" else "False"
  }

  /** The pool key the source builds: f"{file_path}_{language}_{use_gvisor}". */
  function KeyString(req: ContainerRequest): string
  {
    req.filePath + "_" + req.language + "_" + FlagText(req.useGvisor)
  }

  /** `get_or_create_container` as written, keyed by the formatted string. */
  function GetOrCreateAsWritten(pool: map<string, Container>, req: ContainerRequest,
                                create: ContainerRequest -> Result<Container, string>): (r: Result<PoolStep<string>, string>)
    ensures KeyString(req) in pool ==> r == Ok(PoolStep(pool, pool[KeyString(req)]))
    ensures KeyString(req) !in pool && create(req).Ok? ==>
              r == Ok(PoolStep(pool[KeyString(req) := create(req).value], create(req).value))
    ensures KeyString(req) !in pool && create(req).Err? ==> r == Err(create(req).error)
  {
    GetOrCreate(pool, KeyString(req), req, create)
  }

  /**
   The string key is not injective: for any path `f`, text `x` and flag `g`,
   `f` with language x + "_python" and f + "_" + x with language "python"
   format to the same key, so the second call is served the Node container
   started for the first.
   */
  lemma AsWrittenKeyServesWrongLanguage(f: string, x: string, g: bool,
                                        create: ContainerRequest -> Result<Container, string>)
    requires create(ContainerRequest(f, x + "_python", g)).Ok?
    requires MatchesRequest(create(ContainerRequest(f, x + "_python", g)).value, ContainerRequest(f, x + "_python", g))
    ensures var a := ContainerRequest(f, x + "_python", g);
            var b := ContainerRequest(f + "_" + x, PythonLanguage, g);
            var first := GetOrCreateAsWritten(map[], a, create);
            && a.language != b.language
            && KeyString(a) == KeyString(b)
            && first.Ok?
            && var second := GetOrCreateAsWritten(first.value.pool, b, create);
               && second.Ok?
               && second.value.container == first.value.container
               && second.value.container.spec.image == NodeImage
               && !MatchesRequest(second.value.container, b)
  {
    var a := ContainerRequest(f, x + "_python", g);
    var b := ContainerRequest(f + "_" + x, PythonLanguage, g);
    KeysCollide(f, x, g);
    var key := KeyString(a);
    var c := create(a).value;
    var first := GetOrCreate(map[], key, a, create);
    assert first == Ok(PoolStep(map[key := c], c));
    var second := GetOrCreate(first.value.pool, key, b, create);
    assert second == Ok(PoolStep(map[key := c], c));
    NodeContainerDoesNotServePython(c, a, b);
  }

  lemma KeysCollide(f: string, x: string, g: bool)
    ensures KeyString(ContainerRequest(f, x + "_python", g)) == KeyString(ContainerRequest(f + "_" + x, PythonLanguage, g))
  {
    var flag := FlagText(g);
    assert KeyString(ContainerRequest(f, x + "_python", g)) == f + "_" + (x + "_python") + "_" + flag;
    assert KeyString(ContainerRequest(f + "_" + x, PythonLanguage, g)) == f + "_" + x + "_" + "python" + "_" + flag;
  }

  lemma NodeContainerDoesNotServePython(c: Container, a: ContainerRequest, b: ContainerRequest)
    requires MatchesRequest(c, a) && a.language != PythonLanguage && b.language == PythonLanguage
    ensures c.spec.image == NodeImage && !MatchesRequest(c, b)
  {
    assert NodeImage != PythonImage by { assert NodeImage[12] != PythonImage[12]; }
  }

  /** `get_or_create_container` keyed by the argument triple itself. */
  function GetOrCreateContainer(pool: map<ContainerRequest, Container>, req: ContainerRequest,
                                create: ContainerRequest -> Result<Container, string>): (r: Result<PoolStep<ContainerRequest>, string>)
    ensures req in pool ==> r == Ok(PoolStep(pool, pool[req]))
    ensures req !in pool && create(req).Ok? ==>
              r.Ok? && r.value.container == create(req).value
              && r.value.pool.Keys == pool.Keys + {req}
              && r.value.pool[req] == create(req).value
              && forall k :: k in pool ==> r.value.pool[k] == pool[k]
    ensures req !in pool && create(req).Err? ==> r == Err(create(req).error)
  {
    GetOrCreate(pool, req, req, create)
  }

  /** On a hit nothing is created: the result does not depend on the creator at all. */
  lemma HitIgnoresCreator(pool: map<ContainerRequest, Container>, req: ContainerRequest,
                          create1: ContainerRequest -> Result<Container, string>,
                          create2: ContainerRequest -> Result<Container, string>)
    requires req in pool
    ensures GetOrCreateContainer(pool, req, create1) == GetOrCreateContainer(pool, req, create2)
  {
  }

  /** After a call succeeds, the same call hits and returns the same container, leaving the pool as it is. */
  lemma SecondCallHits(pool: map<ContainerRequest, Container>, req: ContainerRequest,
                       create: ContainerRequest -> Result<Container, string>,
                       create2: ContainerRequest -> Result<Container, string>)
    requires GetOrCreateContainer(pool, req, create).Ok?
    ensures var first := GetOrCreateContainer(pool, req, create).value;
            GetOrCreateContainer(first.pool, req, create2) == Ok(PoolStep(first.pool, first.container))
  {
  }

  /** Every pooled container was started for the request it is pooled under. */
  ghost predicate FaithfulPool(pool: map<ContainerRequest, Container>)
  {
    forall q :: q in pool ==> MatchesRequest(pool[q], q)
  }

  /** Keyed by the triple, the pool only ever hands out a container started for the request. */
  lemma PoolServesMatchingContainer(pool: map<ContainerRequest, Container>, req: ContainerRequest,
                                    create: ContainerRequest -> Result<Container, string>)
    requires FaithfulPool(pool) && FaithfulCreator(create)
    ensures var r := GetOrCreateContainer(pool, req, create);
            r.Ok? ==> MatchesRequest(r.value.container, req) && FaithfulPool(r.value.pool)
  {
    if req !in pool && create(req).Ok? {
      var c := create(req).value;
      assert MatchesRequest(c, req);
      var pool' := pool[req := c];
      forall q | q in pool'
        ensures MatchesRequest(pool'[q], q)
      {
        if q != req {
          assert pool'[q] == pool[q];
        }
      }
    }
  }
}
