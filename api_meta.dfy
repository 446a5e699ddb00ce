/**
 * The API description a TSF service reports (pkg/sys/apiMeta/apiMeta.go):
 * every path of every registered service becomes an entry of Paths whose
 * only method answers "200 OK" with an empty schema.  The services come in
 * the order Go's map iteration happens to give; that order is an input.
 */
module ApiMeta {
  import opened Wrappers
  import GoErrors

  /** A path of a service: its HTTP method (`verb`) and full name. */
  datatype Path = Path(verb: string, fullName: string)

  datatype Service = Service(packageName: string, serviceName: string, paths: seq<Path>)

  datatype ResponseEntity = ResponseEntity(schema: map<string, string>, description: string)

  datatype Response = Response(codes: map<string, ResponseEntity>)

  datatype Api = Api(paths: map<string, map<string, Response>>)

  /** The one response every method gets. */
  const Ok: Response := Response(map["200" := ResponseEntity(map[], "OK")])

  /** The method map written for one path: that path's method only. */
  function Methods(p: Path): (m: map<string, Response>)
    ensures m.Keys == {p.verb} && m[p.verb] == Ok
  {
    map[p.verb := Ok]
  }

  /** The paths in the order the loops visit them. */
  function Flat(services: seq<Service>): seq<Path>
  {
    if services == [] then [] else Flat(services[..|services| - 1]) + services[|services| - 1].paths
  }

  /** The Paths map once the loops have visited ps, each path overwriting its FullName's entry. */
  function Build(ps: seq<Path>): map<string, map<string, Response>>
  {
    if ps == [] then map[] else Build(ps[..|ps| - 1])[ps[|ps| - 1].fullName := Methods(ps[|ps| - 1])]
  }

  /** The full names among ps. */
  function Names(ps: seq<Path>): set<string>
  {
    set p | p in ps :: p.fullName
  }

  /** Index i holds the last path of ps with that full name. */
  predicate LastWithName(ps: seq<Path>, i: int)
  {
    0 <= i < |ps| && forall j :: i < j < |ps| ==> ps[j].fullName != ps[i].fullName
  }

  /**
   * Every FullName becomes a key and nothing else does, and each key holds
   * the method map of the last path with that name: methods of an earlier
   * path with the same name are not merged in.
   */
  lemma {:induction false} BuildEntries(ps: seq<Path>)
    ensures Build(ps).Keys == Names(ps)
    ensures forall k :: k in Build(ps) ==>
      exists i :: LastWithName(ps, i) && ps[i].fullName == k && Build(ps)[k] == Methods(ps[i])
  {
    if ps != [] {
      var init := ps[..|ps| - 1];
      var last := ps[|ps| - 1];
      BuildEntries(init);
      assert ps == init + [last];
      NamesSnoc(init, last);
      forall k | k in Build(ps)
        ensures exists i :: LastWithName(ps, i) && ps[i].fullName == k && Build(ps)[k] == Methods(ps[i])
      {
        if k == last.fullName {
          assert LastWithName(ps, |ps| - 1);
        } else {
          var i :| LastWithName(init, i) && init[i].fullName == k && Build(init)[k] == Methods(init[i]);
          assert ps[i] == init[i];
          assert LastWithName(ps, i);
        }
      }
    }
  }

  lemma NamesSnoc(ps: seq<Path>, p: Path)
    ensures Names(ps + [p]) == Names(ps) + {p.fullName}
  {
    forall k | k in Names(ps + [p])
      ensures k in Names(ps) + {p.fullName}
    {
      var q :| q in ps + [p] && q.fullName == k;
      if q != p {
        assert q in ps;
      }
    }
  }

  /** Every entry of Paths has one method, answering only "200". */
  lemma {:induction false} BuildShape(ps: seq<Path>)
    ensures forall k :: k in Build(ps) ==> |Build(ps)[k].Keys| == 1
    ensures forall k, m :: k in Build(ps) && m in Build(ps)[k] ==> Build(ps)[k][m] == Ok
  {
    if ps != [] {
      BuildShape(ps[..|ps| - 1]);
    }
  }

  /** Two paths of one name: only the method of the later one is kept. */
  lemma LaterPathReplaces(a: Path, b: Path)
    requires a.fullName == b.fullName && a.verb != b.verb
    ensures Build([a, b])[a.fullName].Keys == {b.verb}
  {
    assert [a, b][..1] == [a];
  }

  /** One more path overwrites its name's entry. */
  lemma BuildSnoc(ps: seq<Path>, p: Path)
    ensures Build(ps + [p]) == Build(ps)[p.fullName := Methods(p)]
  {
    assert (ps + [p])[..|ps|] == ps;
  }

  /** One more service adds its paths after the others'. */
  lemma FlatSnoc(services: seq<Service>, i: nat)
    requires i < |services|
    ensures Flat(services[..i + 1]) == Flat(services[..i]) + services[i].paths
  {
    assert services[..i + 1][..i] == services[..i];
  }

  /** The inner loop: the paths of one service written over `paths`, which holds Build(before). */
  method WritePaths(paths: map<string, map<string, Response>>, before: seq<Path>, ps: seq<Path>)
    returns (r: map<string, map<string, Response>>)
    requires paths == Build(before)
    ensures r == Build(before + ps)
  {
    r := paths;
    var j := 0;
    assert before + ps[..0] == before;
    while j < |ps|
      invariant 0 <= j <= |ps|
      invariant r == Build(before + ps[..j])
    {
      var path := ps[j];
      var resp := Response(map["200" := ResponseEntity(map[], "OK")]);
      var methods := map[path.verb := resp];
      BuildSnoc(before + ps[..j], path);
      assert before + ps[..j] + [path] == before + ps[..j + 1];
      r := r[path.fullName := methods];
      j := j + 1;
    }
    assert ps[..j] == ps;
  }

  /**
   * GenApiMeta over the services in iteration order: a non-nil, possibly
   * empty Paths map, written path by path.
   */
  method GenApiMeta(services: seq<Service>) returns (api: Api)
    ensures api.paths == Build(Flat(services))
  {
    var paths: map<string, map<string, Response>> := map[];
    var i := 0;
    while i < |services|
      invariant 0 <= i <= |services|
      invariant paths == Build(Flat(services[..i]))
    {
      FlatSnoc(services, i);
      paths := WritePaths(paths, Flat(services[..i]), services[i].paths);
      i := i + 1;
    }
    assert services[..i] == services;
    api := Api(paths);
  }

  /** Encode's nil case: an absent description encodes as "" with no error; the encoding itself is a parameter. */
  function Encode(api: Option<Api>, encodeSome: Api -> (string, Option<GoErrors.Error>)): (r: (string, Option<GoErrors.Error>))
    ensures api.None? ==> r == ("", None)
    ensures api.Some? ==> r == encodeSome(api.value)
  {
    if api.None? then ("", None) else encodeSome(api.value)
  }
}
