/**
 * Checking a client's API key against the groups of the configuration: the
 * groups are visited in configured order and the first one whose key list
 * holds the key gives its name.
 */
module ApiKeyInConfig {
  import opened Wrappers

  /** A configured group: its name and the client keys it admits. */
  datatype Group = Group(name: string, apiKeys: seq<string>)

  /** Group `i` admits `key` (`None` is in no key list). */
  predicate Admits(groups: seq<Group>, i: int, key: Option<string>)
    requires 0 <= i < |groups|
  {
    key.Some? && key.value in groups[i].apiKeys
  }

  lemma AdmitsTail(groups: seq<Group>, key: Option<string>)
    requires groups != []
    ensures forall j :: 1 <= j < |groups| ==> (Admits(groups, j, key) <==> Admits(groups[1..], j - 1, key))
    ensures forall j :: 0 <= j < |groups| - 1 ==> (Admits(groups[1..], j, key) <==> Admits(groups, j + 1, key))
  { }

  /** The position of the first group admitting `key`. */
  function FirstAdmitting(key: Option<string>, groups: seq<Group>): (r: Option<nat>)
    ensures r.Some? ==> r.value < |groups| && Admits(groups, r.value, key)
    ensures r.Some? ==> forall j :: 0 <= j < r.value ==> !Admits(groups, j, key)
    ensures r.None? ==> forall j :: 0 <= j < |groups| ==> !Admits(groups, j, key)
    decreases |groups|
  {
    if groups == [] then None
    else if key.Some? && key.value in groups[0].apiKeys then Some(0)
    else
      AdmitsTail(groups, key);
      match FirstAdmitting(key, groups[1..])
      case None => None
      case Some(i) => Some(i + 1)
  }

  /** `check_api_key_in_config`: the name of the first admitting group,
    * `None` when no group admits the key. */
  function CheckApiKeyInConfig(key: Option<string>, groups: seq<Group>): (r: Option<string>)
    ensures r.None? <==> forall j :: 0 <= j < |groups| ==> !Admits(groups, j, key)
    ensures r.Some? ==> exists i :: 0 <= i < |groups| && Admits(groups, i, key) && groups[i].name == r.value
  {
    match FirstAdmitting(key, groups)
    case None => None
    case Some(i) => Some(groups[i].name)
  }

  /** The same search as the loop with an early return. */
  method CheckApiKeyLoop(key: Option<string>, groups: seq<Group>) returns (r: Option<string>)
    ensures r == CheckApiKeyInConfig(key, groups)
  {
    var i := 0;
    while i < |groups|
      invariant 0 <= i <= |groups|
      invariant forall j :: 0 <= j < i ==> !Admits(groups, j, key)
    {
      if key.Some? && key.value in groups[i].apiKeys {
        FirstIs(key, groups, i);
        return Some(groups[i].name);
      }
      i := i + 1;
    }
    return None;
  }

  /** Whatever position admits the key first is the one the search finds. */
  lemma {:induction false} FirstIs(key: Option<string>, groups: seq<Group>, i: nat)
    requires i < |groups| && Admits(groups, i, key)
    requires forall j :: 0 <= j < i ==> !Admits(groups, j, key)
    ensures FirstAdmitting(key, groups) == Some(i)
    decreases i
  {
    if i > 0 {
      AdmitsTail(groups, key);
      FirstIs(key, groups[1..], i - 1);
    }
  }

  /** A key listed in an earlier group is answered by that group's name
    * whatever the later groups say, when no group before it lists the key. */
  lemma EarliestWins(key: string, groups: seq<Group>, i: nat, j: nat)
    requires i < j < |groups|
    requires key in groups[i].apiKeys && key in groups[j].apiKeys
    requires forall l :: 0 <= l < i ==> key !in groups[l].apiKeys
    ensures CheckApiKeyInConfig(Some(key), groups) == Some(groups[i].name)
  {
    FirstIs(Some(key), groups, i);
  }

  /** Group names are distinct (they are the keys of a dict); then a later
    * group never answers for a key an earlier group lists. */
  lemma LaterGroupNeverAnswers(key: string, groups: seq<Group>, i: nat, j: nat)
    requires forall a, b :: 0 <= a < b < |groups| ==> groups[a].name != groups[b].name
    requires i < j < |groups| && key in groups[i].apiKeys
    ensures CheckApiKeyInConfig(Some(key), groups) != Some(groups[j].name)
  {
    var f := FirstAdmitting(Some(key), groups);
    assert Admits(groups, i, Some(key));
    assert f.Some? && f.value <= i;
  }

  /** No key is admitted for `None`. */
  lemma NoKeyNoGroup(groups: seq<Group>)
    ensures CheckApiKeyInConfig(None, groups) == None
  { }
}
