/** `Pipeline`: sends a package through a list of pipes. Each pipe is a class
    name that the container builds; its stage method (`handle` unless `via`
    names another) receives the package and returns the next one. Building a
    pipe and calling it are one abstract step here: a function from the
    pipe, the method name and the package to a value or an exception. */
module Pipelines {
  import opened Php

  /** Where a run through the pipes ends: the last package stored, and the
      exception that stopped the run, if any. */
  datatype Outcome = Outcome(package: Value, error: Option<Error>)

  /** The run as a left fold over the pipes, in list order: every pipe gets
      the package the pipe before it returned; an exception stops the run
      with the package stored by the last pipe that returned. */
  function Fold(pipes: seq<string>, methodName: string, package: Value,
                stage: (string, string, Value) -> Result<Value>): (r: Outcome)
    ensures pipes == [] ==> r == Outcome(package, None)
    ensures (forall pipe, x :: stage(pipe, methodName, x).Ok?) ==> r.error.None?
    decreases |pipes|
  {
    if pipes == [] then Outcome(package, None)
    else
      var before := Fold(pipes[..|pipes| - 1], methodName, package, stage);
      if before.error.Some? then before
      else match stage(pipes[|pipes| - 1], methodName, before.package)
        case Ok(next) => Outcome(next, None)
        case Err(e) => Outcome(before.package, Some(e))
  }

  /** `process()`'s result for an outcome. */
  function Processed(o: Outcome): (r: Result<Value>)
    ensures o.error.None? ==> r == Ok(o.package)
    ensures o.error.Some? ==> r == Err(o.error.value)
  {
    if o.error.Some? then Err(o.error.value) else Ok(o.package)
  }

  /** No pipes: the package comes out as it went in. */
  lemma FoldEmpty(methodName: string, package: Value, stage: (string, string, Value) -> Result<Value>)
    ensures Fold([], methodName, package, stage) == Outcome(package, None)
  {
  }

  /** One pipe: the package is whatever that pipe's stage returns. */
  lemma FoldSingle(pipe: string, methodName: string, package: Value, stage: (string, string, Value) -> Result<Value>)
    ensures stage(pipe, methodName, package).Ok? ==>
      Fold([pipe], methodName, package, stage) == Outcome(stage(pipe, methodName, package).value, None)
    ensures stage(pipe, methodName, package).Err? ==>
      Fold([pipe], methodName, package, stage) == Outcome(package, Some(stage(pipe, methodName, package).error))
  {
    assert [pipe][..0] == [];
  }

  /** Running `p + q` is running `p`, then running `q` on what came out,
      unless `p` already stopped on an exception. */
  lemma {:induction false} FoldAppend(p: seq<string>, q: seq<string>, methodName: string, package: Value,
                                      stage: (string, string, Value) -> Result<Value>)
    ensures var first := Fold(p, methodName, package, stage);
      Fold(p + q, methodName, package, stage)
        == if first.error.Some? then first else Fold(q, methodName, first.package, stage)
    decreases |q|
  {
    if q == [] {
      assert p + q == p;
    } else {
      var q' := q[..|q| - 1];
      assert (p + q)[..|p + q| - 1] == p + q';
      assert (p + q)[|p + q| - 1] == q[|q| - 1];
      FoldAppend(p, q', methodName, package, stage);
    }
  }

  /** A pipe that hands the package back unchanged can be dropped. */
  lemma IdentityPipe(p: seq<string>, id: string, q: seq<string>, methodName: string, package: Value,
                     stage: (string, string, Value) -> Result<Value>)
    requires forall v :: stage(id, methodName, v) == Ok(v)
    ensures Fold(p + [id] + q, methodName, package, stage) == Fold(p + q, methodName, package, stage)
  {
    FoldAppend(p + [id], q, methodName, package, stage);
    FoldAppend(p, [id], methodName, package, stage);
    FoldAppend(p, q, methodName, package, stage);
    var first := Fold(p, methodName, package, stage);
    if first.error.None? {
      FoldSingle(id, methodName, first.package, stage);
    }
  }

  /** Since `process` stores its result, a second `then` runs the pipes on
      the processed package: two runs are one run through the list twice. */
  lemma SecondRunContinues(pipes: seq<string>, methodName: string, package: Value,
                           stage: (string, string, Value) -> Result<Value>)
    requires Fold(pipes, methodName, package, stage).error.None?
    ensures Fold(pipes, methodName, Fold(pipes, methodName, package, stage).package, stage)
         == Fold(pipes + pipes, methodName, package, stage)
  {
    FoldAppend(pipes, pipes, methodName, package, stage);
  }

  class Pipeline {
    var container: object
    var package: Value
    var pipes: seq<string>
    var methodName: string

    /** `new Pipeline($container)`: no package, no pipes, method `handle`. */
    constructor (container: object)
      ensures this.container == container
      ensures package == Null && pipes == [] && methodName == "handle"
    {
      this.container := container;
      package := Null;
      pipes := [];
      methodName := "handle";
    }

    /** `send($package)` */
    method Send(p: Value) returns (self: Pipeline)
      modifies this`package
      ensures package == p && self == this
    {
      package := p;
      self := this;
    }

    /** `through($pipes)`: replaces the whole list. */
    method Through(ps: seq<string>) returns (self: Pipeline)
      modifies this`pipes
      ensures pipes == ps && self == this
    {
      pipes := ps;
      self := this;
    }

    /** `via($method)` */
    method Via(m: string) returns (self: Pipeline)
      modifies this`methodName
      ensures methodName == m && self == this
    {
      methodName := m;
      self := this;
    }

    /** `process()`: each pipe's result overwrites the stored package. */
    method Process(stage: (string, string, Value) -> Result<Value>) returns (r: Result<Value>)
      modifies this`package
      ensures var o := Fold(pipes, methodName, old(package), stage);
        package == o.package && r == Processed(o)
    {
      var i := 0;
      while i < |pipes|
        invariant 0 <= i <= |pipes|
        invariant Fold(pipes[..i], methodName, old(package), stage) == Outcome(package, None)
      {
        assert pipes[..i + 1][..i] == pipes[..i];
        var next := stage(pipes[i], methodName, package);
        if next.Err? {
          FoldAppend(pipes[..i + 1], pipes[i + 1..], methodName, old(package), stage);
          assert pipes[..i + 1] + pipes[i + 1..] == pipes;
          return Err(next.error);
        }
        package := next.value;
        i := i + 1;
      }
      assert pipes[..i] == pipes;
      r := Ok(package);
    }

    /** `then($callback)`: the callback applied to the processed package. */
    method Then(stage: (string, string, Value) -> Result<Value>, callback: Value -> Result<Value>)
      returns (r: Result<Value>)
      modifies this`package
      ensures var o := Fold(pipes, methodName, old(package), stage);
        && package == o.package
        && (o.error.Some? ==> r == Err(o.error.value))
        && (o.error.None? ==> r == callback(o.package))
    {
      var processed := Process(stage);
      if processed.Err? {
        return processed;
      }
      r := callback(processed.value);
    }
  }
}
