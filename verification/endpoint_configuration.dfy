/**
 * `EndpointConfiguration`: the registry that decides which HTTP endpoints are
 * switched on. It keeps a status map and a group map, fills the groups at
 * startup and then disables the endpoints and groups named by the
 * administrator's removal lists.
 */
module EndpointConfig {
  import opened Wrappers
  import opened JavaStrings
  import opened Endpoints
  import opened StartupTable

  /** How `processEnvironmentConfigs` ends. */
  datatype EnvironmentOutcome =
      /** It ran to the end; `groupsToRemove` is the group list as it stands afterwards. */
    | Processed(groupsToRemove: Option<seq<string>>)
      /** It threw a NullPointerException: the group list was null and had to receive "Calibre". */
    | NullGroupList

  /** Why the constructor threw. */
  datatype ConstructionError = NullGroupsToRemove

  class EndpointConfiguration {
    var endpointStatuses: Statuses
    var endpointGroups: Groups
    var bookAndHtmlFormatsInstalled: bool

    /** The field initialisers followed by `initialize()`: no statuses, the startup groups. */
    constructor Init(bookAndHtmlFormatsInstalled: bool)
      ensures this.bookAndHtmlFormatsInstalled == bookAndHtmlFormatsInstalled
      ensures endpointStatuses == map[]
      ensures endpointGroups == StartupGroups()
    {
      endpointStatuses := map[];
      endpointGroups := map[];
      this.bookAndHtmlFormatsInstalled := bookAndHtmlFormatsInstalled;
      new;
      Initialize();
      MergedIntoNothing(StartupGroups());
    }

    /**
     * The Java constructor: `initialize()` and then `processEnvironmentConfigs()`
     * with the configured removal lists (None for a null list). It throws only
     * when the group list is null and "Calibre" must be added to it. The
     * caller's group list is extended in place; `groupsAfter` is that list as
     * it stands once the constructor has returned or thrown. Whatever
     * the lists hold, every endpoint is still reported enabled afterwards:
     * the status map starts empty and disabling a name it does not hold adds
     * nothing.
     */
    static method Create(bookAndHtmlFormatsInstalled: bool,
                         endpointsToRemove: Option<seq<string>>,
                         groupsToRemove: Option<seq<string>>)
      returns (r: Result<EndpointConfiguration, ConstructionError>, groupsAfter: Option<seq<string>>)
      ensures r.Failure? <==> groupsToRemove.None? && !bookAndHtmlFormatsInstalled
      ensures groupsAfter ==
                if bookAndHtmlFormatsInstalled || groupsToRemove.None? then groupsToRemove
                else Some(groupsToRemove.value + ["Calibre"])
      ensures r.Success? ==> fresh(r.value)
      ensures r.Success? ==> r.value.endpointGroups == StartupGroups()
      ensures r.Success? ==> r.value.endpointStatuses == map[]
      ensures r.Success? ==> forall endpoint :: r.value.IsEndpointEnabled(endpoint)
    {
      var config := new EndpointConfiguration.Init(bookAndHtmlFormatsInstalled);
      var outcome := config.ProcessEnvironmentConfigs(endpointsToRemove, groupsToRemove);
      if outcome.NullGroupList? {
        return Failure(NullGroupsToRemove), groupsToRemove;
      }
      return Success(config), outcome.groupsToRemove;
    }

    /** `enableEndpoint`: the endpoint gets a true entry; no other entry changes. */
    method EnableEndpoint(endpoint: string)
      modifies this`endpointStatuses
      ensures endpointStatuses == old(endpointStatuses)[endpoint := true]
      ensures IsEndpointEnabled("/" + endpoint)
    {
      endpointStatuses := endpointStatuses[endpoint := true];
    }

    /**
     * `disableEndpoint`: a true entry becomes false; a false entry, or a name
     * without an entry, leaves the map as it was.
     */
    method DisableEndpoint(endpoint: string)
      modifies this`endpointStatuses
      ensures endpointStatuses == DisabledAll(old(endpointStatuses), {endpoint})
      ensures old(IsAlreadyDisabled(endpoint)) ==> endpointStatuses == old(endpointStatuses)
      ensures !old(IsAlreadyDisabled(endpoint)) ==> !IsEndpointEnabled("/" + endpoint)
    {
      if !IsAlreadyDisabled(endpoint) {
        endpointStatuses := endpointStatuses[endpoint := false];
      }
    }

    /**
     * `isAlreadyDisabled`: true for a false entry and also for a name without
     * an entry, that is, exactly when disabling the name would change nothing.
     */
    predicate IsAlreadyDisabled(endpoint: string)
      reads this
      ensures IsAlreadyDisabled(endpoint) <==> DisabledAll(endpointStatuses, {endpoint}) == endpointStatuses
    {
      var noOp := DisabledAll(endpointStatuses, {endpoint}) == endpointStatuses;
      assert endpoint in endpointStatuses && noOp ==> !endpointStatuses[endpoint] by {
        if endpoint in endpointStatuses && noOp {
          assert DisabledAll(endpointStatuses, {endpoint})[endpoint] == endpointStatuses[endpoint];
        }
      }
      !(endpoint in endpointStatuses) || !endpointStatuses[endpoint]
    }

    /**
     * `isEndpointEnabled`: looks the path up with one leading `/` removed and
     * defaults to enabled. It is false exactly when the path addresses a name
     * whose entry is false, so with no false entry every path is enabled.
     */
    function IsEndpointEnabled(endpoint: string): (enabled: bool)
      reads this
      ensures !enabled <==> exists name :: name in endpointStatuses && !endpointStatuses[name] && Addresses(endpoint, name)
      ensures (forall name :: name in endpointStatuses ==> endpointStatuses[name]) ==> enabled
    {
      var name := if |endpoint| > 0 && endpoint[0] == '/' then endpoint[1..] else endpoint;
      assert Addresses(endpoint, name) by {
        if |endpoint| > 0 && endpoint[0] == '/' {
          assert endpoint == "/" + name;
        }
      }
      assert forall other :: Addresses(endpoint, other) ==> other == name;
      if name in endpointStatuses then endpointStatuses[name] else true
    }

    /** `addEndpointToGroup`: the group is created empty if missing and receives the endpoint; other groups stay. */
    method AddEndpointToGroup(group: string, endpoint: string)
      modifies this`endpointGroups
      ensures endpointGroups == old(endpointGroups)[group := GroupMembers(old(endpointGroups), group) + {endpoint}]
      ensures endpoint in GroupMembers(old(endpointGroups), group) ==> endpointGroups == old(endpointGroups)
    {
      if endpoint in GroupMembers(endpointGroups, group) {
        assert GroupMembers(endpointGroups, group) + {endpoint} == endpointGroups[group];
      }
      endpointGroups := endpointGroups[group := GroupMembers(endpointGroups, group) + {endpoint}];
    }

    /**
     * `enableGroup`: every member of a known group is enabled, in whatever
     * order the set yields them; an unknown group changes nothing.
     */
    method EnableGroup(group: string)
      modifies this`endpointStatuses
      ensures endpointStatuses == EnabledAll(old(endpointStatuses), GroupMembers(endpointGroups, group))
      ensures group !in endpointGroups ==> endpointStatuses == old(endpointStatuses)
    {
      EnabledNone(endpointStatuses);
      if group in endpointGroups {
        var endpoints := endpointGroups[group];
        var pending := endpoints;
        while pending != {}
          invariant pending <= endpoints
          invariant endpointStatuses == EnabledAll(old(endpointStatuses), endpoints - pending)
          decreases pending
        {
          var endpoint :| endpoint in pending;
          EnableEndpoint(endpoint);
          EnabledAllAddOne(old(endpointStatuses), endpoints - pending, endpoint);
          assert endpoints - (pending - {endpoint}) == (endpoints - pending) + {endpoint};
          pending := pending - {endpoint};
        }
      }
    }

    /**
     * `disableGroup`: every member of a known group is disabled, in whatever
     * order the set yields them; an unknown group changes nothing.
     */
    method DisableGroup(group: string)
      modifies this`endpointStatuses
      ensures endpointStatuses == DisabledAll(old(endpointStatuses), GroupMembers(endpointGroups, group))
      ensures group !in endpointGroups ==> endpointStatuses == old(endpointStatuses)
    {
      DisabledNone(endpointStatuses);
      if group in endpointGroups {
        var endpoints := endpointGroups[group];
        var pending := endpoints;
        while pending != {}
          invariant pending <= endpoints
          invariant endpointStatuses == DisabledAll(old(endpointStatuses), endpoints - pending)
          decreases pending
        {
          var endpoint :| endpoint in pending;
          DisableEndpoint(endpoint);
          DisabledAllCompose(old(endpointStatuses), endpoints - pending, {endpoint});
          assert endpoints - (pending - {endpoint}) == (endpoints - pending) + {endpoint};
          pending := pending - {endpoint};
        }
      }
    }

    /** `addEndpointsToGroup`: adds each listed endpoint; an empty list does not even create the group. */
    method AddEndpointsToGroup(group: string, endpoints: seq<string>)
      modifies this`endpointGroups
      ensures endpoints == [] ==> endpointGroups == old(endpointGroups)
      ensures endpoints != [] ==> endpointGroups == WithEndpoints(old(endpointGroups), group, endpoints)
    {
      for i := 0 to |endpoints|
        invariant i == 0 ==> endpointGroups == old(endpointGroups)
        invariant i > 0 ==>
          endpointGroups == old(endpointGroups)[group := GroupMembers(old(endpointGroups), group) + Elements(endpoints[..i])]
      {
        ghost var before := endpointGroups;
        AddEndpointToGroup(group, endpoints[i]);
        assert i == 0 ==> Elements(endpoints[..i]) == {};
        assert Elements(endpoints[..i + 1]) == Elements(endpoints[..i]) + {endpoints[i]} by {
          assert endpoints[..i + 1] == endpoints[..i] + [endpoints[i]];
        }
        assert GroupMembers(before, group) == GroupMembers(old(endpointGroups), group) + Elements(endpoints[..i]);
        assert endpointGroups == before[group := GroupMembers(before, group) + {endpoints[i]}];
        assert GroupMembers(before, group) + {endpoints[i]} == GroupMembers(old(endpointGroups), group) + Elements(endpoints[..i + 1]);
        assert before[group := GroupMembers(before, group) + {endpoints[i]}] == old(endpointGroups)[group := GroupMembers(old(endpointGroups), group) + Elements(endpoints[..i + 1])];
      }
      assert endpoints[..|endpoints|] == endpoints;
    }

    /**
     * `initialize`: the twelve `addEndpointsToGroup` calls of the startup
     * table. On the empty map of a new object this yields exactly the table;
     * on any map it merges the table in.
     */
    method Initialize()
      modifies this`endpointGroups
      ensures endpointGroups == MergedGroups(old(endpointGroups), StartupGroups())
    {
      AddEndpointsToGroup("PageOps", PageOpsEndpoints);
      AddEndpointsToGroup("Convert", ConvertEndpoints);
      AddEndpointsToGroup("Security", SecurityEndpoints);
      AddEndpointsToGroup("Other", OtherEndpoints);
      AddEndpointsToGroup("CLI", CliEndpoints);
      AddEndpointsToGroup("Calibre", CalibreEndpoints);
      AddEndpointsToGroup("Python", PythonEndpoints);
      AddEndpointsToGroup("OpenCV", OpenCvEndpoints);
      AddEndpointsToGroup("LibreOffice", LibreOfficeEndpoints);
      AddEndpointsToGroup("OCRmyPDF", OcrMyPdfEndpoints);
      AddEndpointsToGroup("Java", JavaEndpoints);
      AddEndpointsToGroup("Javascript", JavascriptEndpoints);
      InitializedIsMerge(old(endpointGroups));
    }

    /**
     * `processEnvironmentConfigs`: appends "Calibre" to the group list when
     * book formats are missing (throwing if that list is null), then disables
     * the trimmed endpoint names, then every member of the trimmed group names.
     */
    method ProcessEnvironmentConfigs(endpointsToRemove: Option<seq<string>>, groupsToRemove: Option<seq<string>>)
      returns (outcome: EnvironmentOutcome)
      modifies this`endpointStatuses
      ensures outcome.NullGroupList? <==> groupsToRemove.None? && !bookAndHtmlFormatsInstalled
      ensures outcome.NullGroupList? ==> endpointStatuses == old(endpointStatuses)
      ensures outcome.Processed? ==>
                outcome.groupsToRemove ==
                  if bookAndHtmlFormatsInstalled then groupsToRemove else Some(groupsToRemove.value + ["Calibre"])
      ensures outcome.Processed? ==>
                endpointStatuses ==
                  DisabledAll(DisabledAll(old(endpointStatuses), TrimmedNames(endpointsToRemove.GetOr([]))),
                              MembersOfGroups(endpointGroups, TrimmedNames(outcome.groupsToRemove.GetOr([]))))
    {
      var groups := groupsToRemove;
      if !bookAndHtmlFormatsInstalled {
        if groups.None? {
          return NullGroupList;
        }
        groups := Some(groups.value + ["Calibre"]);
      }
      DisableEndpoints(endpointsToRemove);
      DisableGroups(groups);
      outcome := Processed(groups);
    }

    /** `disableEndpoints`: disables every trimmed name of the list; a null list changes nothing. */
    method DisableEndpoints(endpointsToRemove: Option<seq<string>>)
      modifies this`endpointStatuses
      ensures endpointStatuses == DisabledAll(old(endpointStatuses), TrimmedNames(endpointsToRemove.GetOr([])))
    {
      DisabledNone(endpointStatuses);
      if endpointsToRemove.Some? {
        var names := endpointsToRemove.value;
        for i := 0 to |names|
          invariant endpointStatuses == DisabledAll(old(endpointStatuses), TrimmedNames(names[..i]))
        {
          DisableEndpoint(Trim(names[i]));
          DisabledAllCompose(old(endpointStatuses), TrimmedNames(names[..i]), {Trim(names[i])});
          TrimmedNamesSnoc(names, i);
        }
        assert names[..|names|] == names;
      }
    }

    /** `disableGroups`: disables the members of every trimmed group name of the list; a null list changes nothing. */
    method DisableGroups(groupsToRemove: Option<seq<string>>)
      modifies this`endpointStatuses
      ensures endpointStatuses ==
        DisabledAll(old(endpointStatuses), MembersOfGroups(endpointGroups, TrimmedNames(groupsToRemove.GetOr([]))))
    {
      DisabledNone(endpointStatuses);
      if groupsToRemove.Some? {
        var names := groupsToRemove.value;
        for i := 0 to |names|
          invariant endpointStatuses ==
            DisabledAll(old(endpointStatuses), MembersOfGroups(endpointGroups, TrimmedNames(names[..i])))
        {
          DisableGroup(Trim(names[i]));
          DisabledAllCompose(old(endpointStatuses), MembersOfGroups(endpointGroups, TrimmedNames(names[..i])),
                             GroupMembers(endpointGroups, Trim(names[i])));
          TrimmedNamesSnoc(names, i);
          MembersOfGroupsAddOne(endpointGroups, TrimmedNames(names[..i]), Trim(names[i]));
        }
        assert names[..|names|] == names;
      }
    }
  }
}
