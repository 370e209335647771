/** The rolling upgrade: deployments that list a config map carry its token in an
    environment variable of every container. */
module Rollouts {
  import opened Text
  import opened Objects
  import opened ApiServer
  import EnvNames
  import Tokens

  // ---- One environment -----------------------------------------------------

  predicate Defines(env: seq<EnvVar>, name: string) {
    exists j | 0 <= j < |env| :: env[j].name == name
  }

  /** Every variable of that name, set to the token. */
  function WithValue(env: seq<EnvVar>, name: string, token: string): seq<EnvVar> {
    seq(|env|, j requires 0 <= j < |env| => if env[j].name == name then EnvVar(name, token) else env[j])
  }

  function WithVariable(env: seq<EnvVar>, name: string, token: string): seq<EnvVar> {
    if Defines(env, name) then WithValue(env, name, token) else env + [EnvVar(name, token)]
  }

  /** The environment after the first `n` names. */
  function WithVariables(env: seq<EnvVar>, names: seq<string>, token: string, n: nat): seq<EnvVar>
    requires n <= |names|
  {
    if n == 0 then env else WithVariable(WithVariables(env, names, token, n - 1), names[n - 1], token)
  }

  // ---- The containers of a deployment --------------------------------------

  function VariableName(configMap: string): string {
    "FABRIC8_" + EnvNames.EnvVarName(configMap) + "_CONFIGMAP"
  }

  /** The variables for the config maps that an annotation lists. */
  function VariableNames(annotation: string): (names: seq<string>)
    ensures |names| == |Split(annotation, ',')| >= 1
    ensures forall i | 0 <= i < |names| :: names[i] == VariableName(Split(annotation, ',')[i])
  {
    var parts := Split(annotation, ',');
    seq(|parts|, i requires 0 <= i < |parts| => VariableName(parts[i]))
  }

  function WithEnv(c: Container, names: seq<string>, token: string, n: nat): Container
    requires n <= |names|
  {
    c.(env := WithVariables(c.env, names, token, n))
  }

  function AllWithEnv(containers: seq<Container>, names: seq<string>, token: string): seq<Container> {
    seq(|containers|, i requires 0 <= i < |containers| => WithEnv(containers[i], names, token, |names|))
  }

  /** One variable in one environment: set where it occurs, appended where it does not. */
  method SetVariable(start: seq<EnvVar>, name: string, token: string) returns (env: seq<EnvVar>, changed: bool)
    ensures env == WithVariable(start, name, token)
    ensures changed <==> env != start
  {
    env := start;
    changed := false;
    var matched := false;
    for j := 0 to |start|
      invariant |env| == |start|
      invariant forall k | j <= k < |start| :: env[k] == start[k]
      invariant forall k | 0 <= k < j :: env[k] == if start[k].name == name then EnvVar(name, token) else start[k]
      invariant matched == Defines(start[..j], name)
      invariant changed <==> exists k | 0 <= k < j :: env[k] != start[k]
    {
      assert start[..j + 1] == start[..j] + [start[j]];
      assert forall k | 0 <= k < j :: start[..j + 1][k] == start[..j][k];
      if env[j].name == name {
        assert start[..j + 1][j].name == name;
        matched := true;
        if env[j].value != token {
          env := env[j := env[j].(value := token)];
          changed := true;
          assert env[j] != start[j];
        }
      }
    }
    assert start[..|start|] == start;
    if !matched {
      env := env + [EnvVar(name, token)];
      changed := true;
    }
  }

  /** updateContainers, on the containers of a deployment in place. */
  method UpdateContainers(containers: array<Container>, annotation: string, token: string) returns (answer: bool)
    modifies containers
    ensures containers[..] == AllWithEnv(old(containers[..]), VariableNames(annotation), token)
    ensures answer <==> containers[..] != old(containers[..])
  {
    hide WithVariable, Split, EnvNames.EnvVarName;
    ghost var was := containers[..];
    ghost var names := VariableNames(annotation);
    answer := false;
    var configMaps := Split(annotation, ',');
    for n := 0 to |configMaps|
      invariant forall i | 0 <= i < containers.Length :: containers[i] == WithEnv(was[i], names, token, n)
      invariant answer <==> exists i | 0 <= i < containers.Length :: containers[i] != was[i]
    {
      var converted := EnvNames.ConvertToEnvVarName(configMaps[n]);
      var variable := "FABRIC8_" + converted + "_CONFIGMAP";
      assert variable == names[n] by { assert variable == VariableName(configMaps[n]); }
      for i := 0 to containers.Length
        invariant forall k | 0 <= k < i :: containers[k] == WithEnv(was[k], names, token, n + 1)
        invariant forall k | i <= k < containers.Length :: containers[k] == WithEnv(was[k], names, token, n)
        invariant answer <==> exists k | 0 <= k < containers.Length :: containers[k] != was[k]
      {
        var env, changed := SetVariable(containers[i].env, variable, token);
        DifferencesStay(was[i].env, names, token, n);
        ghost var before := containers[..];
        containers[i] := containers[i].(env := env);
        assert forall k | 0 <= k < containers.Length && k != i :: containers[k] == before[k];
        if changed {
          answer := true;
          assert containers[i] != was[i];
        } else {
          assert containers[..] == before;
        }
      }
    }
  }

  // ---- What an upgraded environment looks like -----------------------------

  predicate Among(name: string, names: seq<string>, n: nat)
    requires n <= |names|
  {
    exists i | 0 <= i < n :: names[i] == name
  }

  /** A listed variable that the environment did not define. */
  predicate IsAppended(env: seq<EnvVar>, names: seq<string>, token: string, n: nat, v: EnvVar)
    requires n <= |names|
  {
    Among(v.name, names, n) && v.value == token && !Defines(env, v.name)
  }

  /** The closed form: old variables stay in place, the listed ones with the token;
      behind them come the listed variables that were missing, each once. */
  ghost predicate IsUpgrade(env: seq<EnvVar>, names: seq<string>, token: string, n: nat, r: seq<EnvVar>)
    requires n <= |names|
  {
    && |r| >= |env|
    && (forall j | 0 <= j < |env| :: r[j] == if Among(env[j].name, names, n) then EnvVar(env[j].name, token) else env[j])
    && (forall j | |env| <= j < |r| :: IsAppended(env, names, token, n, r[j]))
    && (forall j, k | |env| <= j < k < |r| :: r[j].name != r[k].name)
    && (forall i | 0 <= i < n :: Defines(r, names[i]))
  }

  /** After the upgrade every listed variable carries the token, and all other variables
      keep their value and their place. */
  lemma {:induction false} UpgradeHasClosedForm(env: seq<EnvVar>, names: seq<string>, token: string, n: nat)
    requires n <= |names|
    ensures IsUpgrade(env, names, token, n, WithVariables(env, names, token, n))
  {
    if n > 0 {
      UpgradeHasClosedForm(env, names, token, n - 1);
      var before := WithVariables(env, names, token, n - 1);
      var name := names[n - 1];
      assert forall s: string :: Among(s, names, n) <==> Among(s, names, n - 1) || s == name;
      var r := WithVariables(env, names, token, n);
      hide WithVariables, IsUpgrade;
      if Defines(before, name) {
        assert r == WithValue(before, name, token);
        SetForm(env, names, token, n, before);
      } else {
        AppendedForm(env, names, token, n, before, r);
      }
    }
  }

  lemma SetForm(env: seq<EnvVar>, names: seq<string>, token: string, n: nat, before: seq<EnvVar>)
    requires 0 < n <= |names|
    requires IsUpgrade(env, names, token, n - 1, before)
    requires Defines(before, names[n - 1])
    requires forall s: string :: Among(s, names, n) <==> Among(s, names, n - 1) || s == names[n - 1]
    ensures IsUpgrade(env, names, token, n, WithValue(before, names[n - 1], token))
  {
    hide Among;
    var name := names[n - 1];
    var r := WithValue(before, name, token);
    assert forall j | 0 <= j < |r| :: r[j].name == before[j].name;
    assert forall j | |env| <= j < |r| :: r[j].value == token;
    forall i | 0 <= i < n ensures Defines(r, names[i]) {
      var j :| 0 <= j < |before| && before[j].name == names[i];
      assert r[j].name == names[i];
    }
  }

  lemma AppendedForm(env: seq<EnvVar>, names: seq<string>, token: string, n: nat, before: seq<EnvVar>, r: seq<EnvVar>)
    requires 0 < n <= |names|
    requires IsUpgrade(env, names, token, n - 1, before)
    requires !Defines(before, names[n - 1]) && r == before + [EnvVar(names[n - 1], token)]
    requires forall s: string :: Among(s, names, n) <==> Among(s, names, n - 1) || s == names[n - 1]
    ensures IsUpgrade(env, names, token, n, r)
  {
    var name := names[n - 1];
    assert !Defines(env, name) by {
      assert forall j | 0 <= j < |env| :: before[j].name == env[j].name;
    }
    forall i | 0 <= i < n ensures Defines(r, names[i]) {
      if i < n - 1 {
        var j :| 0 <= j < |before| && before[j].name == names[i];
        assert r[j].name == names[i];
      } else {
        assert r[|before|].name == name;
      }
    }
  }

  /** An environment is left alone exactly when every listed variable is defined and each
      of its occurrences has the token. */
  predicate Settled(env: seq<EnvVar>, names: seq<string>, token: string, n: nat)
    requires n <= |names|
  {
    && (forall i | 0 <= i < n :: Defines(env, names[i]))
    && (forall j | 0 <= j < |env| :: Among(env[j].name, names, n) ==> env[j].value == token)
  }

  lemma {:induction false} SettledStays(env: seq<EnvVar>, names: seq<string>, token: string, n: nat)
    requires n <= |names| && Settled(env, names, token, n)
    ensures WithVariables(env, names, token, n) == env
  {
    if n > 0 {
      assert forall s: string :: Among(s, names, n) <==> Among(s, names, n - 1) || s == names[n - 1];
      SettledStays(env, names, token, n - 1);
      assert WithValue(env, names[n - 1], token) == env;
    }
  }

  lemma UnchangedIffSettled(env: seq<EnvVar>, names: seq<string>, token: string, n: nat)
    requires n <= |names|
    ensures WithVariables(env, names, token, n) == env <==> Settled(env, names, token, n)
  {
    hide WithVariables;
    UpgradeHasClosedForm(env, names, token, n);
    if Settled(env, names, token, n) {
      SettledStays(env, names, token, n);
    }
  }

  /** A difference made by an early variable is never undone by a later one. */
  lemma DifferencesStay(env: seq<EnvVar>, names: seq<string>, token: string, n: nat)
    requires n < |names|
    ensures WithVariables(env, names, token, n) != env ==> WithVariables(env, names, token, n + 1) != env
    ensures WithVariables(env, names, token, n + 1) != WithVariables(env, names, token, n)
        ==> WithVariables(env, names, token, n + 1) != env
  {
    UnchangedIffSettled(env, names, token, n);
    UnchangedIffSettled(env, names, token, n + 1);
    assert forall s: string :: Among(s, names, n) ==> Among(s, names, n + 1);
  }

  /** Upgrading again with the same token changes nothing. */
  lemma UpgradeIsIdempotent(env: seq<EnvVar>, names: seq<string>, token: string)
    ensures var once := WithVariables(env, names, token, |names|);
            WithVariables(once, names, token, |names|) == once
  {
    hide WithVariables;
    UpgradeHasClosedForm(env, names, token, |names|);
    UnchangedIffSettled(WithVariables(env, names, token, |names|), names, token, |names|);
  }

  /** Upgrading with another token changes every environment that was upgraded before. */
  lemma NewTokenChanges(env: seq<EnvVar>, names: seq<string>, token: string, token': string)
    requires names != [] && token != token'
    ensures var once := WithVariables(env, names, token, |names|);
            WithVariables(once, names, token', |names|) != once
  {
    hide WithVariables;
    var once := WithVariables(env, names, token, |names|);
    UpgradeHasClosedForm(env, names, token, |names|);
    UnchangedIffSettled(once, names, token', |names|);
    assert Defines(once, names[0]);
    var j :| 0 <= j < |once| && once[j].name == names[0];
    assert Among(once[j].name, names, |names|);
    assert once[j].value == token;
  }

  // ---- The deployments of a namespace --------------------------------------

  const UPDATE_ON_CHANGE := "configmap.fabric8.io/update-on-change"

  predicate Follows(d: Deployment, configMap: string) {
    var annotation := Lookup(d.annotations, UPDATE_ON_CHANGE);
    annotation != "" && configMap in Split(annotation, ',')
  }

  function Upgraded(d: Deployment, configMap: string, token: string): Deployment {
    if Follows(d, configMap)
    then d.(containers := AllWithEnv(d.containers, VariableNames(Lookup(d.annotations, UPDATE_ON_CHANGE)), token))
    else d
  }

  function AllUpgraded(deployments: map<Key, Deployment>, namespace: string, configMap: string, token: string)
    : map<Key, Deployment>
  {
    map key | key in deployments ::
      if key.namespace == namespace then Upgraded(deployments[key], configMap, token) else deployments[key]
  }

  /** updateContainers on the listed copy of a deployment. */
  method UpgradedContainers(containers: seq<Container>, annotation: string, token: string) returns (r: seq<Container>)
    ensures r == AllWithEnv(containers, VariableNames(annotation), token)
  {
    var copy := new Container[|containers|](i requires 0 <= i < |containers| => containers[i]);
    assert copy[..] == containers;
    var _ := UpdateContainers(copy, annotation, token);
    r := copy[..];
  }

  /** The deployments once the listed ones before position `done` have been visited. */
  function UpgradedUpTo(
    deployments: map<Key, Deployment>, namespace: string, configMap: string, token: string, names: seq<string>, done: nat)
    : map<Key, Deployment>
    requires done <= |names|
  {
    map key | key in deployments ::
      if key.namespace == namespace && key.name in names[..done] then Upgraded(deployments[key], configMap, token) else deployments[key]
  }

  predicate Refused(deployments: map<Key, Deployment>, key: Key, configMap: string, broken: set<string>) {
    key in deployments && Follows(deployments[key], configMap) && key.name in broken
  }

  /** What a rollout over the listed deployments comes to: it stops at the first one that
      follows the config map and whose update the server refuses, if there is one, with
      exactly those listed before it upgraded. */
  ghost predicate RolledOut(
    was: map<Key, Deployment>, now: map<Key, Deployment>, namespace: string, configMap: string, token: string,
    broken: set<string>, names: seq<string>, done: nat)
  {
    && Enumerates(names, was, namespace) && done <= |names|
    && now == UpgradedUpTo(was, namespace, configMap, token, names, done)
    && (forall i | 0 <= i < done :: !Refused(was, Key(namespace, names[i]), configMap, broken))
    && (done < |names| ==> Refused(was, Key(namespace, names[done]), configMap, broken))
  }

  /** rollingUpgradeDeployments. `broken` are the deployments whose update the server
      refuses. The order in which the deployments were listed is returned along. */
  method RollingUpgrade(server: ApiServer, namespace: string, configMap: string, data: Dict, broken: set<string>)
    returns (failed: bool, ghost names: seq<string>, ghost done: nat)
    modifies server`deployments
    ensures RolledOut(
      old(server.deployments), server.deployments, namespace, configMap, Tokens.Token(data), broken, names, done)
    ensures failed <==> done < |names|
  {
    hide AllWithEnv, VariableNames, Tokens.Token, Split;
    var token := Tokens.ConvertConfigMapToToken(data);
    ghost var was := server.deployments;
    var items := server.deployments;
    var listed := ListNames(server.deployments, namespace);
    names, done := listed, 0;
    assert server.deployments == UpgradedUpTo(was, namespace, configMap, token, listed, 0);
    for n := 0 to |listed|
      invariant done == n
      invariant server.deployments == UpgradedUpTo(was, namespace, configMap, token, listed, n)
      invariant forall i | 0 <= i < n :: !Refused(was, Key(namespace, listed[i]), configMap, broken)
    {
      assert listed[n] in listed;
      var key := Key(namespace, listed[n]);
      var d := items[key];
      OneMore(was, namespace, configMap, token, listed, n);
      var annotation := Lookup(d.annotations, UPDATE_ON_CHANGE);
      if annotation != "" {
        var matches := MatchesName(Split(annotation, ','), configMap);
        if matches {
          var containers := UpgradedContainers(d.containers, annotation, token);
          if key.name in broken {
            return true, listed, n;
          }
          server.deployments := server.deployments[key := d.(containers := containers)];
        }
      }
      done := done + 1;
    }
    failed := false;
  }

  lemma OneMore(
    deployments: map<Key, Deployment>, namespace: string, configMap: string, token: string, names: seq<string>, n: nat)
    requires n < |names| && Key(namespace, names[n]) in deployments
    ensures var key := Key(namespace, names[n]);
      UpgradedUpTo(deployments, namespace, configMap, token, names, n + 1)
      == UpgradedUpTo(deployments, namespace, configMap, token, names, n)[key := Upgraded(deployments[key], configMap, token)]
    ensures var key := Key(namespace, names[n]);
      !Follows(deployments[key], configMap) ==>
        UpgradedUpTo(deployments, namespace, configMap, token, names, n + 1)
        == UpgradedUpTo(deployments, namespace, configMap, token, names, n)
  {
    hide Follows;
    assert names[..n + 1] == names[..n] + [names[n]];
  }

  /** A rollout upgrades every following deployment of the namespace exactly when none of
      them refuses; otherwise a listed one that follows is left as it was. */
  lemma RolloutIsCompleteIffNoneRefuses(
    was: map<Key, Deployment>, now: map<Key, Deployment>, namespace: string, configMap: string, token: string,
    broken: set<string>, names: seq<string>, done: nat)
    requires RolledOut(was, now, namespace, configMap, token, broken, names, done)
    ensures done == |names| <==> forall key | key in was && key.namespace == namespace :: !Refused(was, key, configMap, broken)
    ensures done == |names| ==> now == AllUpgraded(was, namespace, configMap, token)
    ensures done < |names| ==> var key := Key(namespace, names[done]);
      key in was && now[key] == was[key] && Follows(was[key], configMap)
  {
    hide Upgraded, Follows;
    if done == |names| {
      assert names[..done] == names;
      forall key | key in was && key.namespace == namespace
        ensures key.name in names && !Refused(was, key, configMap, broken)
      {
        assert Key(namespace, key.name) == key;
        var i :| 0 <= i < |names| && names[i] == key.name;
      }
    } else {
      assert names[done] in names;
    }
  }

  method MatchesName(values: seq<string>, name: string) returns (matches: bool)
    ensures matches <==> name in values
  {
    for i := 0 to |values|
      invariant name !in values[..i]
    {
      if values[i] == name {
        return true;
      }
    }
    matches := false;
  }

  /** A repeated rollout with the same data changes no deployment. */
  lemma RepeatedRolloutChangesNothing(d: Deployment, configMap: string, token: string)
    ensures Upgraded(Upgraded(d, configMap, token), configMap, token) == Upgraded(d, configMap, token)
  {
    hide WithVariables, VariableNames;
    var names := VariableNames(Lookup(d.annotations, UPDATE_ON_CHANGE));
    forall i | 0 <= i < |d.containers| {
      UpgradeIsIdempotent(d.containers[i].env, names, token);
    }
    if Follows(d, configMap) {
      var once := Upgraded(d, configMap, token);
      assert AllWithEnv(once.containers, names, token) == once.containers;
    }
  }

  /** A rollout after the data changed changes every following deployment that has a
      container, as long as no value can be mistaken for further entries. */
  lemma RolloutIffChange(legal: Tokens.KeyRule, d: Deployment, configMap: string, data: Dict, data': Dict)
    requires Tokens.Sane(legal) && Tokens.LegalKeys(legal, data) && Tokens.LegalKeys(legal, data')
    requires Tokens.SafeValues(legal, data) && Tokens.SafeValues(legal, data')
    ensures var once := Upgraded(d, configMap, Tokens.Token(data));
            (Upgraded(once, configMap, Tokens.Token(data')) != once
             <==> data != data' && Follows(d, configMap) && d.containers != [])
  {
    Tokens.TokenIsInjective(legal, data, data');
    var token, token' := Tokens.Token(data), Tokens.Token(data');
    RolloutIffTokenChange(d, configMap, token, token');
  }

  lemma RolloutIffTokenChange(d: Deployment, configMap: string, token: string, token': string)
    ensures var once := Upgraded(d, configMap, token);
            (Upgraded(once, configMap, token') != once
             <==> token != token' && Follows(d, configMap) && d.containers != [])
  {
    hide WithVariables, VariableNames;
    RepeatedRolloutChangesNothing(d, configMap, token);
    var once := Upgraded(d, configMap, token);
    if token != token' && Follows(d, configMap) && d.containers != [] {
      var names := VariableNames(Lookup(d.annotations, UPDATE_ON_CHANGE));
      NewTokenChanges(d.containers[0].env, names, token, token');
      assert AllWithEnv(once.containers, names, token')[0] != once.containers[0];
    } else if Follows(d, configMap) && d.containers == [] {
      assert Upgraded(once, configMap, token').containers == once.containers;
    }
  }

  // ---- After a rollout, read off the stored deployments --------------------

  /** The config maps that a deployment lists. */
  function ListedMaps(d: Deployment): seq<string> {
    var text := Lookup(d.annotations, "configmap.fabric8.io/update-on-change");
    if text == "" then [] else Split(text, ',')
  }

  /** The variables of the listed config maps. */
  function ListedVariables(d: Deployment): set<string> {
    set m | m in ListedMaps(d) :: "FABRIC8_" + EnvNames.EnvVarName(m) + "_CONFIGMAP"
  }

  /** Every listed variable is there, and has the token wherever it occurs; every other
      variable keeps its place and value; behind the old variables come only listed ones
      that were missing, each once. */
  ghost predicate Carries(before: seq<EnvVar>, after: seq<EnvVar>, listed: set<string>, token: string) {
    && (forall name | name in listed :: exists j :: 0 <= j < |after| && after[j].name == name)
    && (forall j | 0 <= j < |after| && after[j].name in listed :: after[j].value == token)
    && |before| <= |after|
    && (forall j | 0 <= j < |before| :: after[j].name == before[j].name && (before[j].name !in listed ==> after[j] == before[j]))
    && (forall j | |before| <= j < |after| :: after[j].name in listed && forall i | 0 <= i < j :: after[i].name != after[j].name)
  }

  /** The container is the old one, but for an environment that carries the token. */
  ghost predicate ContainerFollows(before: Container, after: Container, listed: set<string>, token: string) {
    after.name == before.name && Carries(before.env, after.env, listed, token)
  }

  /** All containers of the deployment, every one of them, carry the token; nothing else of
      it changes. */
  ghost predicate DeploymentFollows(before: Deployment, after: Deployment, token: string) {
    && after == before.(containers := after.containers)
    && |after.containers| == |before.containers|
    && forall i | 0 <= i < |before.containers| ::
         ContainerFollows(before.containers[i], after.containers[i], ListedVariables(before), token)
  }

  lemma AmongMeansListed(d: Deployment, name: string)
    requires Lookup(d.annotations, UPDATE_ON_CHANGE) != ""
    ensures var names := VariableNames(Lookup(d.annotations, UPDATE_ON_CHANGE));
            Among(name, names, |names|) <==> name in ListedVariables(d)
  {
    hide EnvNames.EnvVarName, Split;
    var maps, names := ListedMaps(d), VariableNames(Lookup(d.annotations, UPDATE_ON_CHANGE));
    assert |maps| == |names| && forall i | 0 <= i < |maps| :: maps[i] in maps && names[i] == VariableName(maps[i]);
    if m :| m in maps && VariableName(m) == name {
      var i :| 0 <= i < |maps| && maps[i] == m;
      assert names[i] == name;
    }
  }

  lemma Position(name: string, names: seq<string>) returns (i: nat)
    requires Among(name, names, |names|)
    ensures i < |names| && names[i] == name
  {
    i :| 0 <= i < |names| && names[i] == name;
  }

  lemma UpgradeCarries(env: seq<EnvVar>, names: seq<string>, token: string, listed: set<string>)
    requires forall name: string :: Among(name, names, |names|) <==> name in listed
    ensures Carries(env, WithVariables(env, names, token, |names|), listed, token)
  {
    var n := |names|;
    var after := WithVariables(env, names, token, n);
    UpgradeHasClosedForm(env, names, token, n);
    hide WithVariables, Among;
    forall name | name in listed
      ensures exists j :: 0 <= j < |after| && after[j].name == name
    {
      assert Among(name, names, n);
      var i := Position(name, names);
      assert Defines(after, names[i]);
    }
    forall i, j | 0 <= i < j < |after| && |env| <= j
      ensures after[i].name != after[j].name
    {
      assert i < |env| ==> after[i].name == env[i].name && !Defines(env, after[j].name);
    }
  }

  lemma UpgradedFollows(d: Deployment, configMap: string, token: string)
    requires configMap in ListedMaps(d)
    ensures DeploymentFollows(d, Upgraded(d, configMap, token), token)
  {
    hide WithVariables, VariableNames, ListedVariables, Carries, Split, Among;
    var names := VariableNames(Lookup(d.annotations, UPDATE_ON_CHANGE));
    forall name: string {
      AmongMeansListed(d, name);
    }
    forall i | 0 <= i < |d.containers| {
      UpgradeCarries(d.containers[i].env, names, token, ListedVariables(d));
    }
  }

  /** However far a rollout gets: of the deployments of its namespace that list the config
      map, those visited before it stopped carry the token in all their containers; all
      other deployments are as they were. */
  lemma RolloutSoFar(
    was: map<Key, Deployment>, now: map<Key, Deployment>, namespace: string, configMap: string, token: string,
    broken: set<string>, names: seq<string>, done: nat, key: Key)
    requires RolledOut(was, now, namespace, configMap, token, broken, names, done) && key in was
    ensures now.Keys == was.Keys
    ensures if key.namespace == namespace && configMap in ListedMaps(was[key]) && key.name in names[..done]
            then DeploymentFollows(was[key], now[key], token)
            else now[key] == was[key]
  {
    hide Upgraded, DeploymentFollows, Split;
    if configMap in ListedMaps(was[key]) {
      UpgradedFollows(was[key], configMap, token);
    } else {
      NotFollowing(was[key], configMap, token);
    }
  }

  lemma NotFollowing(d: Deployment, configMap: string, token: string)
    requires configMap !in ListedMaps(d)
    ensures Upgraded(d, configMap, token) == d
  {
    hide AllWithEnv, Split;
  }

  /** A complete rollout: exactly the deployments of the namespace that list the config map
      carry the token, in all their containers. */
  lemma CompleteRollout(
    was: map<Key, Deployment>, now: map<Key, Deployment>, namespace: string, configMap: string, token: string,
    broken: set<string>, names: seq<string>)
    requires RolledOut(was, now, namespace, configMap, token, broken, names, |names|)
    ensures now.Keys == was.Keys
    ensures forall key | key in was ::
      if key.namespace == namespace && configMap in ListedMaps(was[key])
      then DeploymentFollows(was[key], now[key], token)
      else now[key] == was[key]
  {
    hide DeploymentFollows, ListedMaps, Upgraded;
    assert now.Keys == was.Keys;
    assert names[..|names|] == names;
    forall key | key in was
      ensures if key.namespace == namespace && configMap in ListedMaps(was[key])
              then DeploymentFollows(was[key], now[key], token)
              else now[key] == was[key]
    {
      assert key.namespace == namespace ==> key.name in names by { assert Key(namespace, key.name) in was <==> key.name in names; }
      RolloutSoFar(was, now, namespace, configMap, token, broken, names, |names|, key);
    }
  }
}
