/** pkg/health/health.go: the health endpoint. Every checker is run once,
    in order; each gives a detail under its name, and the service is
    "unhealthy", answered with 503, as soon as one check reports an error.
    A checker's `Check` is a function of no arguments here: `None` when the
    check passes, `Some(message)` for the error it returns. Timestamps and
    the JSON body are not modelled. */
module Health {
  import opened Wrappers

  const Healthy: string := "healthy"
  const Unhealthy: string := "unhealthy"
  const StatusOK: int := 200
  const StatusServiceUnavailable: int := 503

  /** `Detail`, without its timestamp; `error` is "" when there was none. */
  datatype Detail = Detail(status: string, error: string)

  /** A `HealthChecker`: its name and what its check reports. */
  datatype Checker = Checker(name: string, check: () -> Option<string>)

  /** The response the handler writes: its status code, content type and
      the `Status` body without its timestamp. */
  datatype Response = Response(code: int, contentType: string, status: string, details: map<string, Detail>)

  /** `NewDBChecker`: a checker whose check is the database ping. */
  function NewDBChecker(name: string, ping: () -> Option<string>): (c: Checker)
    ensures c.name == name
    ensures c.check() == ping()
  {
    Checker(name, ping)
  }

  /** The detail one checker contributes. */
  function DetailOf(c: Checker): (d: Detail)
    ensures d.status == Unhealthy <==> c.check().Some?
    ensures d.status == Healthy <==> c.check().None?
    ensures c.check().Some? ==> d.error == c.check().value
  {
    match c.check()
    case None => Detail(Healthy, "")
    case Some(msg) => Detail(Unhealthy, msg)
  }

  predicate Fails(c: Checker)
  {
    c.check().Some?
  }

  /** Some check in `cs` reports an error. */
  predicate AnyFails(cs: seq<Checker>)
  {
    exists i :: 0 <= i < |cs| && Fails(cs[i])
  }

  /** The details map after the checkers of `cs` have run in order. */
  function Details(cs: seq<Checker>): map<string, Detail>
  {
    if cs == [] then map[]
    else Details(cs[..|cs| - 1])[cs[|cs| - 1].name := DetailOf(cs[|cs| - 1])]
  }

  /** The handler `NewHealthHandler(checkers)` returns, run on one request. */
  method HealthHandler(checkers: seq<Checker>) returns (r: Response)
    ensures r.status == Unhealthy <==> AnyFails(checkers)
    ensures r.status == Healthy <==> !AnyFails(checkers)
    ensures r.code == if AnyFails(checkers) then StatusServiceUnavailable else StatusOK
    ensures r.contentType == "application/json"
    ensures r.details == Details(checkers)
  {
    var status := Healthy;
    var details: map<string, Detail> := map[];
    for i := 0 to |checkers|
      invariant status == if AnyFails(checkers[..i]) then Unhealthy else Healthy
      invariant details == Details(checkers[..i])
    {
      var checker := checkers[i];
      var detail := Detail(Healthy, "");
      var err := checker.check();
      if err.Some? {
        status := Unhealthy;
        detail := Detail(Unhealthy, err.value);
      }
      details := details[checker.name := detail];
      assert checkers[..i + 1][..i] == checkers[..i];
      assert checkers[..i + 1][i] == checker;
      assert AnyFails(checkers[..i + 1]) <==> AnyFails(checkers[..i]) || Fails(checker);
    }
    assert checkers[..|checkers|] == checkers;
    var code := StatusOK;
    if status != Healthy {
      code := StatusServiceUnavailable;
    }
    r := Response(code, "application/json", status, details);
  }

  /** Every checker has a detail, and nothing else does: a failing check
      does not stop the later ones. */
  lemma {:induction false} DetailsKeys(cs: seq<Checker>, name: string)
    ensures name in Details(cs) <==> exists i :: 0 <= i < |cs| && cs[i].name == name
  {
    if cs != [] {
      var n := |cs|;
      var init := cs[..n - 1];
      DetailsKeys(init, name);
      if cs[n - 1].name != name {
        if exists i :: 0 <= i < n && cs[i].name == name {
          var i :| 0 <= i < n && cs[i].name == name;
          assert init[i].name == name;
        }
        if exists i :: 0 <= i < |init| && init[i].name == name {
          var i :| 0 <= i < |init| && init[i].name == name;
          assert cs[i].name == name;
        }
      }
    }
  }

  /** The index of the last checker called `name`, or -1. */
  function LastNamed(cs: seq<Checker>, name: string): (j: int)
    ensures -1 <= j < |cs|
    ensures j >= 0 ==> cs[j].name == name
    ensures forall k :: j < k < |cs| ==> cs[k].name != name
  {
    if cs == [] then -1
    else if cs[|cs| - 1].name == name then |cs| - 1
    else LastNamed(cs[..|cs| - 1], name)
  }

  /** The detail under a name is the one of the last checker with that
      name. */
  lemma {:induction false} DetailsLast(cs: seq<Checker>, name: string)
    requires name in Details(cs)
    ensures LastNamed(cs, name) >= 0 && Details(cs)[name] == DetailOf(cs[LastNamed(cs, name)])
  {
    var n := |cs|;
    if cs[n - 1].name != name {
      var init := cs[..n - 1];
      DetailsLast(init, name);
      assert cs[LastNamed(init, name)] == init[LastNamed(init, name)];
    }
  }

  /** An unhealthy detail always comes with an unhealthy service. */
  lemma UnhealthyDetailMeansUnhealthy(cs: seq<Checker>, name: string)
    requires name in Details(cs) && Details(cs)[name].status == Unhealthy
    ensures AnyFails(cs)
  {
    DetailsLast(cs, name);
    assert Fails(cs[LastNamed(cs, name)]);
  }

  predicate DistinctNames(cs: seq<Checker>)
  {
    forall i, j :: 0 <= i < j < |cs| ==> cs[i].name != cs[j].name
  }

  /** With distinct names the converse holds too: the service is unhealthy
      exactly when some detail is. */
  lemma UnhealthyIffSomeDetail(cs: seq<Checker>)
    requires DistinctNames(cs)
    ensures AnyFails(cs) <==> exists name :: name in Details(cs) && Details(cs)[name].status == Unhealthy
  {
    if AnyFails(cs) {
      var i :| 0 <= i < |cs| && Fails(cs[i]);
      var name := cs[i].name;
      DetailsKeys(cs, name);
      DetailsLast(cs, name);
      assert LastNamed(cs, name) == i;
    }
    if exists name :: name in Details(cs) && Details(cs)[name].status == Unhealthy {
      var name :| name in Details(cs) && Details(cs)[name].status == Unhealthy;
      UnhealthyDetailMeansUnhealthy(cs, name);
    }
  }

  /** Two checkers under one name: a failing first one is overwritten by a
      passing second, so the service is unhealthy while its only detail
      says healthy. */
  lemma DuplicateNameHidesFailure()
    ensures var cs := [Checker("db", () => Some("down")), Checker("db", () => None)];
      AnyFails(cs) && Details(cs) == map["db" := Detail(Healthy, "")]
  {
    var cs := [Checker("db", () => Some("down")), Checker("db", () => None)];
    assert Fails(cs[0]);
    assert cs[..1][..0] == [];
    assert cs[..1] == [cs[0]];
    assert Details(cs[..1]) == map["db" := Detail(Unhealthy, "down")];
  }
}
