/**
 * The value-level description of the endpoint feature-flag registry: the two
 * maps it keeps, the startup group table, and reference definitions of what
 * enabling or disabling a whole set of endpoints does to the status map.
 */
module Endpoints {
  import opened Wrappers
  import opened JavaStrings

  /** Endpoint name to enabled flag. A name without an entry counts as enabled. */
  type Statuses = map<string, bool>

  /** Group name to the names of the endpoints it bundles. */
  type Groups = map<string, set<string>>

  /** The members of `group`, or no members when the group is unknown. */
  function GroupMembers(groups: Groups, group: string): set<string> {
    if group in groups then groups[group] else {}
  }

  /** The endpoints of every known group named in `names`. */
  function MembersOfGroups(groups: Groups, names: set<string>): set<string> {
    set group, endpoint | group in names && group in groups && endpoint in groups[group] :: endpoint
  }

  /** The distinct elements of a list. */
  function Elements(list: seq<string>): set<string> {
    set x | x in list
  }

  /** The distinct trimmed elements of a list. */
  function TrimmedNames(list: seq<string>): set<string> {
    set x | x in list :: Trim(x)
  }

  /** A request path refers to an endpoint name: it is the name behind one `/`, or the name itself when the name does not start with `/`. */
  predicate Addresses(path: string, name: string) {
    path == "/" + name || (path == name && !(|name| > 0 && name[0] == '/'))
  }

  /**
   * The statuses after each of `names` has been disabled. Disabling turns a
   * true entry to false, leaves a false entry false and adds no entry for a
   * name the map does not know.
   */
  function DisabledAll(statuses: Statuses, names: set<string>): (r: Statuses)
    ensures r.Keys == statuses.Keys
    ensures forall name :: name in names && name in r ==> !r[name]
    ensures forall name :: name in r && name !in names ==> r[name] == statuses[name]
  {
    map name | name in statuses :: statuses[name] && name !in names
  }

  /** The statuses after each of `names` has been enabled: every one of them gets a true entry. */
  function EnabledAll(statuses: Statuses, names: set<string>): (r: Statuses)
    ensures r.Keys == statuses.Keys + names
    ensures forall name :: name in names ==> r[name]
    ensures forall name :: name in statuses && name !in names ==> r[name] == statuses[name]
  {
    map name | name in statuses.Keys + names :: name in names || statuses[name]
  }

  /**
   * Group contents after the groups of `added` have been merged into `groups`.
   * A merge loses nothing: every group of either map is kept with all its members.
   */
  function MergedGroups(groups: Groups, added: Groups): (r: Groups)
    ensures forall group :: group in groups ==> group in r && groups[group] <= r[group]
    ensures forall group :: group in added ==> group in r && added[group] <= r[group]
  {
    map group | group in groups.Keys + added.Keys :: GroupMembers(groups, group) + GroupMembers(added, group)
  }

  /** A group map holding the keys of both maps and, in each group, the members of both, is their merge. */
  lemma MergedByMembers(merged: Groups, groups: Groups, added: Groups)
    requires merged.Keys == groups.Keys + added.Keys
    requires forall group :: GroupMembers(merged, group) == GroupMembers(groups, group) + GroupMembers(added, group)
    ensures merged == MergedGroups(groups, added)
  {
  }

  /** Merging into no groups gives the merged table itself. */
  lemma MergedIntoNothing(added: Groups)
    ensures MergedGroups(map[], added) == added
  {
    var r := MergedGroups(map[], added);
    assert forall group :: group in r ==> r[group] == added[group];
  }

  /** Disabling `a` and then `b` is disabling `a` and `b` together. */
  lemma DisabledAllCompose(statuses: Statuses, a: set<string>, b: set<string>)
    ensures DisabledAll(DisabledAll(statuses, a), b) == DisabledAll(statuses, a + b)
  {
  }

  /** The order in which two removal lists are applied does not matter. */
  lemma DisablingCommutes(statuses: Statuses, a: set<string>, b: set<string>)
    ensures DisabledAll(DisabledAll(statuses, a), b) == DisabledAll(DisabledAll(statuses, b), a)
  {
  }

  /** Disabling nothing changes nothing. */
  lemma DisabledNone(statuses: Statuses)
    ensures DisabledAll(statuses, {}) == statuses
  {
  }

  /** Enabling one more name is enabling the enlarged set. */
  lemma EnabledAllAddOne(statuses: Statuses, names: set<string>, name: string)
    ensures EnabledAll(statuses, names)[name := true] == EnabledAll(statuses, names + {name})
  {
  }

  /** Enabling nothing changes nothing. */
  lemma EnabledNone(statuses: Statuses)
    ensures EnabledAll(statuses, {}) == statuses
  {
  }

  // `enableGroup` and `disableGroup` walk a set in an order Java leaves to the
  // set's iterator. The two lemmas below state, on values, that any such order
  // gives the set-level result; the methods' loops reach the same result through
  // their own invariants over the members still pending.

  /** The result of enabling names one at a time, in the order given. */
  function EnableInOrder(statuses: Statuses, order: seq<string>): Statuses {
    if order == [] then statuses
    else EnableInOrder(statuses, order[..|order| - 1])[order[|order| - 1] := true]
  }

  /** The result of disabling names one at a time, in the order given. */
  function DisableInOrder(statuses: Statuses, order: seq<string>): Statuses {
    if order == [] then statuses
    else DisabledAll(DisableInOrder(statuses, order[..|order| - 1]), {order[|order| - 1]})
  }

  /** Enabling the members of a set one by one gives the same map whatever the order. */
  lemma {:induction false} EnableInOrderIsSetwise(statuses: Statuses, order: seq<string>)
    ensures EnableInOrder(statuses, order) == EnabledAll(statuses, Elements(order))
  {
    if order == [] {
      EnabledNone(statuses);
    } else {
      var front, last := order[..|order| - 1], order[|order| - 1];
      EnableInOrderIsSetwise(statuses, front);
      EnabledAllAddOne(statuses, Elements(front), last);
      assert order == front + [last];
      assert Elements(order) == Elements(front) + {last};
    }
  }

  /** Disabling the members of a set one by one gives the same map whatever the order. */
  lemma {:induction false} DisableInOrderIsSetwise(statuses: Statuses, order: seq<string>)
    ensures DisableInOrder(statuses, order) == DisabledAll(statuses, Elements(order))
  {
    if order == [] {
      DisabledNone(statuses);
    } else {
      var front, last := order[..|order| - 1], order[|order| - 1];
      DisableInOrderIsSetwise(statuses, front);
      DisabledAllCompose(statuses, Elements(front), {last});
      assert order == front + [last];
      assert Elements(order) == Elements(front) + {last};
    }
  }

  /** Growing a list by one element grows its trimmed names by that element's trim. */
  lemma TrimmedNamesSnoc(list: seq<string>, i: nat)
    requires i < |list|
    ensures TrimmedNames(list[..i + 1]) == TrimmedNames(list[..i]) + {Trim(list[i])}
  {
  }

  /** Naming one more group adds that group's members. */
  lemma MembersOfGroupsAddOne(groups: Groups, names: set<string>, group: string)
    ensures MembersOfGroups(groups, names + {group}) == MembersOfGroups(groups, names) + GroupMembers(groups, group)
  {
  }


  /** `addEndpointsToGroup` on the group map for a non-empty list: the group, created if missing, gains the listed endpoints. */
  function WithEndpoints(groups: Groups, group: string, endpoints: seq<string>): Groups {
    groups[group := GroupMembers(groups, group) + Elements(endpoints)]
  }

  /** What adding `endpoints` to group `name` contributes to group `group`: the listed endpoints when the names agree, nothing otherwise. */
  function ListedUnder(group: string, name: string, endpoints: seq<string>): set<string> {
    if group == name then Elements(endpoints) else {}
  }

  /** After adding endpoints to one group, every group holds its old members plus what the list contributes to it. */
  lemma WithEndpointsMembers(groups: Groups, name: string, endpoints: seq<string>, group: string)
    ensures GroupMembers(WithEndpoints(groups, name, endpoints), group) == GroupMembers(groups, group) + ListedUnder(group, name, endpoints)
  {
  }
}
