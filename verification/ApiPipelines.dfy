/** The middleware of `McmaApiController`, folded around the route. */
module ApiPipelines {

  /** What running something comes to; what it changed before it threw stays changed. */
  datatype Outcome<C> = Returned(value: C) | Threw(value: C, error: string)

  /** A middleware does something, then either calls the rest of the pipeline and does something with what
      that comes to, or returns without calling it; and it may throw on either side of the call. C is what
      a request carries along. */
  datatype Middleware<!C> = Middleware(before: C -> Outcome<C>, goesOn: C -> bool, after: Outcome<C> -> Outcome<C>)

  /** A pipeline as the closures that make it: the route, with middleware around it. */
  datatype Pipeline<!C> = Route | Wrapped(middleware: Middleware<C>, inner: Pipeline<C>)

  type Step<!C> = C -> Outcome<C>

  /** A request going through a pipeline. */
  function Run<C>(pipeline: Pipeline<C>, route: Step<C>, c: C): Outcome<C> {
    match pipeline
    case Route => route(c)
    case Wrapped(m, inner) =>
      var d := m.before(c);
      if d.Returned? && m.goesOn(d.value) then m.after(Run(inner, route, d.value)) else d
  }

  function Nested<C>(middleware: seq<Middleware<C>>): Pipeline<C> {
    if middleware == [] then Route else Wrapped(middleware[0], Nested(middleware[1..]))
  }

  /** The loop of the constructor, from the last middleware to the first. */
  method BuildPipeline<C>(middleware: seq<Middleware<C>>) returns (pipeline: Pipeline<C>)
    ensures pipeline == Nested(middleware)
  {
    pipeline := Route;
    assert middleware[|middleware|..] == [];
    for i := |middleware| downto 0
      invariant pipeline == Nested(middleware[i..])
    {
      assert middleware[i..][0] == middleware[i] && middleware[i..][1..] == middleware[i + 1..];
      pipeline := Wrapped(middleware[i], pipeline);
    }
    assert middleware[0..] == middleware;
  }

  // ---------------------------------------------------------------- layers

  /** What a request comes to on its way in, first middleware first, and how many of them go on. */
  function Entered<C>(middleware: seq<Middleware<C>>, c: C): (r: (Outcome<C>, nat))
    ensures r.1 <= |middleware|
    ensures r.1 == |middleware| ==> r.0.Returned?
  {
    if middleware == [] then (Returned(c), 0)
    else
      var d := middleware[0].before(c);
      if d.Returned? && middleware[0].goesOn(d.value) then
        var (e, k) := Entered(middleware[1..], d.value);
        (e, k + 1)
      else (d, 0)
  }

  /** What the innermost part that is reached comes to: the route, if all middleware go on. */
  function Innermost<C>(middleware: seq<Middleware<C>>, route: Step<C>, c: C): Outcome<C> {
    var (d, k) := Entered(middleware, c);
    if k == |middleware| then route(d.value) else d
  }

  /** What that comes to on its way out, last middleware first. */
  function Left<C>(middleware: seq<Middleware<C>>, o: Outcome<C>): Outcome<C> {
    if middleware == [] then o
    else Left(middleware[..|middleware| - 1], middleware[|middleware| - 1].after(o))
  }

  lemma {:induction false} LeftLast<C>(first: Middleware<C>, rest: seq<Middleware<C>>, o: Outcome<C>)
    ensures Left([first] + rest, o) == first.after(Left(rest, o))
    decreases |rest|
  {
    var all := [first] + rest;
    if rest == [] {
      assert all[..|all| - 1] == [];
      assert Left([], first.after(o)) == first.after(o);
    } else {
      var n := |rest| - 1;
      assert all[..|all| - 1] == [first] + rest[..n] && all[|all| - 1] == rest[n];
      LeftLast(first, rest[..n], rest[n].after(o));
    }
  }

  /** A request passes the middleware in the order of declaration, up to the first that throws or does not
      go on; the route runs exactly if all go on; and what this comes to passes those that went on in the
      opposite order. */
  lemma {:induction false} LayersAreNested<C>(middleware: seq<Middleware<C>>, route: Step<C>, c: C)
    ensures Run(Nested(middleware), route, c) == Left(middleware[..Entered(middleware, c).1], Innermost(middleware, route, c))
  {
    if middleware != [] {
      var first, rest := middleware[0], middleware[1..];
      var d := first.before(c);
      if d.Returned? && first.goesOn(d.value) {
        var k := Entered(rest, d.value).1;
        LayersAreNested(rest, route, d.value);
        LeftLast(first, rest[..k], Innermost(rest, route, d.value));
        assert [first] + rest[..k] == middleware[..k + 1];
      } else {
        assert middleware[..0] == [];
      }
    }
  }

  /** A middleware without a try block: what is thrown inside is thrown on, and nothing is done after it. */
  ghost predicate ThrowsOn<C(!new)>(m: Middleware<C>) {
    forall o: Outcome<C> | o.Threw? :: m.after(o) == o
  }

  /** What is thrown anywhere inside comes out as it is, with no layer doing anything after it, if no layer
      that went on catches it. */
  lemma {:induction false} ThrownIsThrownOn<C(!new)>(middleware: seq<Middleware<C>>, o: Outcome<C>)
    requires o.Threw? && forall i | 0 <= i < |middleware| :: ThrowsOn(middleware[i])
    ensures Left(middleware, o) == o
  {
    if middleware != [] {
      var n := |middleware| - 1;
      assert ThrowsOn(middleware[n]);
      assert forall i | 0 <= i < n :: middleware[..n][i] == middleware[i];
      ThrownIsThrownOn(middleware[..n], o);
    }
  }
}
