/**
  The config loader of the file reader's onload handler: the parsed
  document's `config[].params[]` lists become one flat list of parameter
  records, or the handler throws and nothing is stored.
 */
module ConfigLoader {
  import opened Wrappers
  import opened Records

  /**
    Why a load stops: the text is not JSON (JSON.parse throws), the document
    has no `config` list, or the group at the given position has no `params`
    list (its forEach throws).
   */
  datatype LoadError = NotJson | MissingConfig | MissingParams(group: nat)

  /** The flattened list of the groups, or the position of the first group without `params`. */
  function Flatten(groups: seq<Group>): Result<seq<Param>, LoadError>
    decreases |groups|
  {
    if groups == [] then Success([])
    else
      match Flatten(groups[..|groups| - 1])
      case Failure(e) => Failure(e)
      case Success(list) =>
        match groups[|groups| - 1].params
        case None => Failure(MissingParams(|groups| - 1))
        case Some(ps) => Success(list + ps)
  }

  /** What the onload handler stores for an upload; None is text JSON.parse rejects. */
  function Load(upload: Option<ConfigDocument>): Result<seq<Param>, LoadError> {
    match upload
    case None => Failure(NotJson)
    case Some(doc) =>
      match doc.config
      case None => Failure(MissingConfig)
      case Some(groups) => Flatten(groups)
  }

  /** Every group has a `params` list. */
  predicate AllHaveParams(groups: seq<Group>) {
    forall k :: 0 <= k < |groups| ==> groups[k].params.Some?
  }

  /** The number of parameter records in groups that all have a `params` list. */
  function TotalParams(groups: seq<Group>): nat
    requires AllHaveParams(groups)
    decreases |groups|
  {
    if groups == [] then 0
    else TotalParams(groups[..|groups| - 1]) + |groups[|groups| - 1].params.value|
  }

  /** Once a prefix of the groups fails, the whole list fails with the same error. */
  lemma {:induction false} FailurePropagates(groups: seq<Group>, n: nat, e: LoadError)
    requires n <= |groups| && Flatten(groups[..n]) == Failure(e)
    ensures Flatten(groups) == Failure(e)
    decreases |groups| - n
  {
    if n < |groups| {
      assert groups[..n + 1][..n] == groups[..n];
      FailurePropagates(groups, n + 1, e);
    } else {
      assert groups[..n] == groups;
    }
  }

  /**
    Flattening fails exactly when a group lacks `params`, and then it names
    the first such group.
   */
  lemma {:induction false} FlattenOutcome(groups: seq<Group>)
    ensures Flatten(groups).Success? <==> AllHaveParams(groups)
    ensures Flatten(groups).Failure? ==>
      var i := Flatten(groups).error;
      && i.MissingParams? && i.group < |groups| && groups[i.group].params.None?
      && AllHaveParams(groups[..i.group])
    decreases |groups|
  {
    if groups != [] {
      var n := |groups| - 1;
      FlattenOutcome(groups[..n]);
      assert forall k :: 0 <= k < n ==> groups[..n][k] == groups[k];
      if Flatten(groups[..n]).Failure? {
        var g := Flatten(groups[..n]).error.group;
        assert groups[..n][..g] == groups[..g];
      }
    }
  }

  /** The flattened list holds as many records as the groups' `params` lists together. */
  lemma {:induction false} FlattenLength(groups: seq<Group>)
    requires AllHaveParams(groups)
    ensures Flatten(groups).Success? && |Flatten(groups).value| == TotalParams(groups)
    decreases |groups|
  {
    if groups != [] {
      var n := |groups| - 1;
      assert AllHaveParams(groups[..n]);
      FlattenLength(groups[..n]);
    }
  }

  /** Flattening a concatenation of groups concatenates their flattened lists. */
  lemma {:induction false} FlattenAppend(a: seq<Group>, b: seq<Group>)
    requires AllHaveParams(a) && AllHaveParams(b)
    ensures AllHaveParams(a + b)
    ensures Flatten(a).Success? && Flatten(b).Success?
    ensures Flatten(a + b) == Success(Flatten(a).value + Flatten(b).value)
    decreases |b|
  {
    FlattenOutcome(a);
    FlattenOutcome(b);
    FlattenOutcome(a + b);
    if b == [] {
      assert a + b == a;
      assert Flatten(b) == Success([]);
      assert Flatten(a).value + [] == Flatten(a).value;
    } else {
      var n := |b| - 1;
      assert (a + b)[..|a + b| - 1] == a + b[..n];
      assert AllHaveParams(b[..n]);
      FlattenAppend(a, b[..n]);
      FlattenOutcome(b[..n]);
      var la, lb, ps := Flatten(a).value, Flatten(b[..n]).value, b[n].params.value;
      assert (a + b)[|a + b| - 1] == b[n];
      assert Flatten(b) == Success(lb + ps);
      assert Flatten(a + b) == Success(la + lb + ps);
      assert la + lb + ps == la + (lb + ps);
    }
  }

  /**
    Flattening keeps group order and param order and copies every record:
    param k of group i lands right after the records of the groups before it.
   */
  lemma FlattenPosition(groups: seq<Group>, i: nat, k: nat)
    requires AllHaveParams(groups)
    requires i < |groups| && k < |groups[i].params.value|
    ensures AllHaveParams(groups[..i])
    ensures Flatten(groups).Success?
    ensures TotalParams(groups[..i]) + k < |Flatten(groups).value|
    ensures Flatten(groups).value[TotalParams(groups[..i]) + k] == groups[i].params.value[k]
  {
    var front, rest := groups[..i + 1], groups[i + 1..];
    assert groups == front + rest;
    assert AllHaveParams(front) && AllHaveParams(rest);
    FlattenAppend(front, rest);
    assert front[..i] == groups[..i];
    assert AllHaveParams(groups[..i]);
    FlattenLength(groups[..i]);
    var before := Flatten(groups[..i]).value;
    assert Flatten(front) == Success(before + groups[i].params.value);
    assert (before + groups[i].params.value)[|before| + k] == groups[i].params.value[k];
  }

  /**
    The onload handler's loop: parse result in, and either the flat list it
    would store or the reason it throws.
   */
  method FlattenConfig(upload: Option<ConfigDocument>) returns (outcome: Result<seq<Param>, LoadError>)
    ensures outcome == Load(upload)
  {
    if upload.None? {
      return Failure(NotJson);
    }
    var xpsConfigData := upload.value;
    if xpsConfigData.config.None? {
      return Failure(MissingConfig);
    }
    var groups := xpsConfigData.config.value;
    var configList: seq<Param> := [];
    var i := 0;
    while i < |groups|
      invariant 0 <= i <= |groups|
      invariant Flatten(groups[..i]) == Success(configList)
    {
      var config := groups[i];
      if config.params.None? {
        assert groups[..i + 1][..i] == groups[..i];
        FailurePropagates(groups, i + 1, MissingParams(i));
        return Failure(MissingParams(i));
      }
      var params := config.params.value;
      ghost var before := configList;
      var k := 0;
      while k < |params|
        invariant 0 <= k <= |params|
        invariant configList == before + params[..k]
      {
        var param := params[k];
        configList := configList + [Param(param.variable, param.idx, param.val, param.attr)];
        assert params[..k + 1] == params[..k] + [param];
        k := k + 1;
      }
      assert params[..|params|] == params;
      assert groups[..i + 1][..i] == groups[..i];
      i := i + 1;
    }
    assert groups[..|groups|] == groups;
    return Success(configList);
  }
}
