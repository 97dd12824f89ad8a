/** How `fit` hands the ensemble's hyperparameters to each base classifier
    (src/models/classifiers.py, lines 63-67): a key is meant for a
    classifier when it contains the classifier's lower-cased class name,
    and it reaches the classifier renamed to the text after its first
    "__". A dict is an insertion-ordered list of (key, value) pairs with
    distinct keys. */
module Routing {
  import opened Wrappers
  import opened Text
  import opened Learners

  type Dict = seq<(string, ParamValue)>

  const Delimiter: string := "__"

  /** `hp[key]`: the value stored under `key`, if any. */
  function Lookup(hp: Dict, key: string): (r: Option<ParamValue>)
    ensures r.Some? <==> exists t :: 0 <= t < |hp| && hp[t].0 == key
    ensures r.Some? ==> exists t :: 0 <= t < |hp| && hp[t] == (key, r.value)
  {
    if |hp| == 0 then None
    else if hp[|hp| - 1].0 == key then Some(hp[|hp| - 1].1)
    else
      var r := Lookup(hp[..|hp| - 1], key);
      assert forall t :: 0 <= t < |hp| - 1 ==> hp[..|hp| - 1][t] == hp[t];
      r
  }

  /** What routing does with one key for the classifier named `nm`. */
  datatype KeyRoute =
    | Ignored                // the key does not contain `nm`
    | Broken(key: string)    // it does, but has no "__": `split("__", 1)[1]` raises
    | Renamed(name: string)  // it does, and reaches the classifier as `name`

  function RouteOf(key: string, nm: string): (r: KeyRoute)
    ensures r.Ignored? <==> !Contains(key, nm)
    ensures r.Broken? <==> Contains(key, nm) && !Contains(key, Delimiter)
    ensures r.Broken? ==> r.key == key
    ensures r.Renamed? ==> exists i: nat ::
      && OccursAt(key, Delimiter, i)
      && (forall j: nat :: j < i ==> !OccursAt(key, Delimiter, j))
      && key == key[..i] + Delimiter + r.name
  {
    if !Contains(key, nm) then Ignored
    else
      match AfterFirst(key, Delimiter)
      case None => Broken(key)
      case Some(rest) => Renamed(rest)
  }

  /** The dict comprehension over the keys' routes, in key order: the first
      broken key raises, a later name overwrites an earlier one. */
  function Gather<V>(rs: seq<(KeyRoute, V)>): Result<map<string, V>, string>
  {
    if |rs| == 0 then Ok(map[])
    else
      match Gather(rs[..|rs| - 1])
      case Err(key) => Err(key)
      case Ok(m) =>
        match rs[|rs| - 1].0
        case Ignored => Ok(m)
        case Broken(key) => Err(key)
        case Renamed(name) => Ok(m[name := rs[|rs| - 1].1])
  }

  /** `{k.split("__", 1)[1]: hp.get(k) for k in ks}` with `ks` the keys
      that contain `nm`: `Err(key)` names the first key that has no "__". */
  function Route(hp: Dict, nm: string): Result<map<string, ParamValue>, string>
  {
    Gather(Routes(hp, nm))
  }

  function Routes(hp: Dict, nm: string): (rs: seq<(KeyRoute, ParamValue)>)
    ensures |rs| == |hp| && forall t :: 0 <= t < |hp| ==> rs[t] == (RouteOf(hp[t].0, nm), hp[t].1)
  {
    seq(|hp|, t requires 0 <= t < |hp| => (RouteOf(hp[t].0, nm), hp[t].1))
  }

  /** `t` is the first broken route. */
  predicate FirstBroken<V>(rs: seq<(KeyRoute, V)>, t: int)
  {
    0 <= t < |rs| && rs[t].0.Broken? && forall t' :: 0 <= t' < t ==> !rs[t'].0.Broken?
  }

  lemma {:induction false} GatherFails<V>(rs: seq<(KeyRoute, V)>)
    ensures Gather(rs).Err? <==> exists t :: 0 <= t < |rs| && rs[t].0.Broken?
    ensures Gather(rs).Err? ==> exists t :: FirstBroken(rs, t) && rs[t].0.key == Gather(rs).error
  {
    if |rs| > 0 {
      var init := rs[..|rs| - 1];
      GatherFails(init);
      assert forall t :: 0 <= t < |init| ==> init[t] == rs[t];
      if Gather(init).Err? {
        var t :| FirstBroken(init, t) && init[t].0.key == Gather(init).error;
        assert FirstBroken(rs, t);
      } else if rs[|rs| - 1].0.Broken? {
        assert FirstBroken(rs, |rs| - 1);
      }
    }
  }

  lemma {:induction false} GatherHas<V>(rs: seq<(KeyRoute, V)>, name: string)
    requires Gather(rs).Ok?
    ensures name in Gather(rs).value <==> exists t :: 0 <= t < |rs| && rs[t].0 == Renamed(name)
  {
    if |rs| > 0 {
      var init := rs[..|rs| - 1];
      GatherHas(init, name);
      if exists t :: 0 <= t < |init| && init[t].0 == Renamed(name) {
        var t :| 0 <= t < |init| && init[t].0 == Renamed(name);
        assert rs[t] == init[t];
      }
      if exists t :: 0 <= t < |rs| && rs[t].0 == Renamed(name) {
        var t :| 0 <= t < |rs| && rs[t].0 == Renamed(name);
        if t < |init| {
          assert init[t] == rs[t];
        }
      }
    }
  }

  /** No route after position `t` renames to `name`. */
  predicate LastRenaming<V>(rs: seq<(KeyRoute, V)>, t: nat, name: string)
    requires t < |rs|
  {
    forall t' :: t < t' < |rs| ==> rs[t'].0 != Renamed(name)
  }

  lemma {:induction false} GatherLast<V>(rs: seq<(KeyRoute, V)>, t: nat, name: string)
    requires Gather(rs).Ok? && t < |rs| && rs[t].0 == Renamed(name) && LastRenaming(rs, t, name)
    ensures name in Gather(rs).value && Gather(rs).value[name] == rs[t].1
  {
    var init := rs[..|rs| - 1];
    if t < |init| {
      assert init[t] == rs[t];
      assert LastRenaming(init, t, name) by {
        forall t' | t < t' < |init| ensures init[t'].0 != Renamed(name) {
          assert init[t'] == rs[t'];
        }
      }
      GatherLast(init, t, name);
    }
  }

  /** Routing fails exactly when some key contains `nm` but no "__", and
      then it names the first such key. */
  lemma RouteFails(hp: Dict, nm: string)
    ensures Route(hp, nm).Err? <==> exists t :: 0 <= t < |hp| && RouteOf(hp[t].0, nm).Broken?
    ensures Route(hp, nm).Err? ==> exists t :: FirstBroken(Routes(hp, nm), t) && hp[t].0 == Route(hp, nm).error
  {
    GatherFails(Routes(hp, nm));
  }

  /** On success the classifier receives exactly the names its keys are
      renamed to (a key without `nm`, such as "breaks", gives nothing),
      each with the value of the last key renamed to that name. */
  lemma RouteKeys(hp: Dict, nm: string)
    requires Route(hp, nm).Ok?
    ensures forall t :: 0 <= t < |hp| ==> !RouteOf(hp[t].0, nm).Broken?
    ensures forall name :: name in Route(hp, nm).value <==> exists t :: 0 <= t < |hp| && RouteOf(hp[t].0, nm) == Renamed(name)
    ensures forall t: nat, name :: t < |hp| && RouteOf(hp[t].0, nm) == Renamed(name) && LastRenaming(Routes(hp, nm), t, name) ==>
      Route(hp, nm).value[name] == hp[t].1
  {
    var rs := Routes(hp, nm);
    GatherFails(rs);
    forall name ensures name in Route(hp, nm).value <==> exists t :: 0 <= t < |hp| && RouteOf(hp[t].0, nm) == Renamed(name) {
      GatherHas(rs, name);
    }
    forall t: nat, name | t < |hp| && RouteOf(hp[t].0, nm) == Renamed(name) && LastRenaming(rs, t, name)
      ensures Route(hp, nm).value[name] == hp[t].1
    {
      GatherLast(rs, t, name);
    }
  }
}
