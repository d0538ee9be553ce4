/** The environment picker dialog's lists: the Digital Twins environments
    and storage containers offered, how they are loaded, merged with the
    caller's subscription, extended from typed input and pruned. */
module EnvironmentPicker {
  import opened Wrappers
  import opened JsValues
  import opened Strings
  import opened Urls

  const HttpsPrefix := "https://"

  /** An `IADTInstance` as the picker reads it. */
  datatype AdtInstance = AdtInstance(name: string, hostName: string)

  /** An environment entry: a URL string or an instance from the subscription. */
  datatype Environment = EnvUrl(url: string) | EnvInstance(instance: AdtInstance)

  /** Which of the two validity rules applies. */
  datatype UrlKind = EnvironmentUrl | ContainerUrl

  // ---------------------------------------------------------------------
  // URLs of entries and their validity
  // ---------------------------------------------------------------------

  /** `getUrl`: '' for a missing or empty entry, a string unchanged, an
      instance as its host name with the https prefix `addHttpsPrefix` adds. */
  function GetUrl(environment: Option<Environment>, addHttpsPrefix: string -> string): (r: string)
    ensures environment.None? ==> r == ""
    ensures environment.Some? && environment.value.EnvUrl? ==> r == environment.value.url
    ensures environment.Some? && environment.value.EnvInstance? ==> r == addHttpsPrefix(environment.value.instance.hostName)
  {
    match environment
    case None => ""
    case Some(EnvUrl(s)) => if s == "" then "" else s
    case Some(EnvInstance(i)) => addHttpsPrefix(i.hostName)
  }

  /** `suffixes.some(suffix => host.endsWith(suffix))`. */
  function AnySuffix(host: string, suffixes: seq<string>): (r: bool)
    ensures r <==> exists k :: 0 <= k < |suffixes| && EndsWith(host, suffixes[k])
  {
    if suffixes == [] then false
    else EndsWith(host, suffixes[0]) || AnySuffix(host, suffixes[1..])
  }

  /** `isValidUrlStr`, evaluated in the source's order: a non-empty string,
      the https prefix, then (inside the `some` callback, so only when there
      is a suffix to try) parsing, the host-name suffix and, for a container,
      a path other than '/'. A parse failure is caught and gives false. */
  function IsValidUrl(urlStr: string, kind: UrlKind, parse: UrlParser,
                      adtSuffixes: seq<string>, containerSuffixes: seq<string>): (r: bool)
    ensures r <==> && StartsWith(urlStr, HttpsPrefix)
                   && parse(urlStr).Some?
                   && (exists k :: 0 <= k < |SuffixesFor(kind, adtSuffixes, containerSuffixes)|
                         && EndsWith(parse(urlStr).value.hostname, SuffixesFor(kind, adtSuffixes, containerSuffixes)[k]))
                   && (kind == ContainerUrl ==> parse(urlStr).value.pathname != "/")
  {
    var suffixes := SuffixesFor(kind, adtSuffixes, containerSuffixes);
    if urlStr == "" || !StartsWith(urlStr, HttpsPrefix) then false
    else if |suffixes| == 0 then false
    else match parse(urlStr)
      case None => false
      case Some(u) => AnySuffix(u.hostname, suffixes) && (kind == EnvironmentUrl || u.pathname != "/")
  }

  function SuffixesFor(kind: UrlKind, adtSuffixes: seq<string>, containerSuffixes: seq<string>): seq<string> {
    if kind == EnvironmentUrl then adtSuffixes else containerSuffixes
  }

  // ---------------------------------------------------------------------
  // Initial lists
  // ---------------------------------------------------------------------

  /** An entry of the environments kept in local storage. */
  datatype StoredEnvironment = StoredEnvironment(config: Option<StoredConfig>)

  datatype StoredConfig = StoredConfig(appAdtUrl: Option<string>)

  /** The entry's `config?.appAdtUrl` when truthy. */
  function StoredUrl(e: StoredEnvironment): Option<string> {
    if e.config.Some? && TruthyText(e.config.value.appAdtUrl) then e.config.value.appAdtUrl else None
  }

  /** The truthy `appAdtUrl`s of the stored entries, in order. */
  function StoredUrls(stored: seq<StoredEnvironment>): (r: seq<string>)
    ensures forall u :: u in r <==> exists k :: 0 <= k < |stored| && StoredUrl(stored[k]) == Some(u)
    ensures forall k :: 0 <= k < |r| ==> r[k] != ""
    decreases |stored|
  {
    if stored == [] then []
    else
      var front := StoredUrls(stored[..|stored| - 1]);
      var last := StoredUrl(stored[|stored| - 1]);
      assert forall k :: 0 <= k < |stored| - 1 ==> stored[..|stored| - 1][k] == stored[k];
      front + (if last.Some? then [last.value] else [])
  }

  /** The stored URLs keep the order of the stored entries: the filter
      distributes over concatenation, and one entry gives its URL or none. */
  lemma {:induction false} StoredUrlsAppend(a: seq<StoredEnvironment>, b: seq<StoredEnvironment>)
    ensures StoredUrls(a + b) == StoredUrls(a) + StoredUrls(b)
    decreases |b|
  {
    if b == [] {
      assert a + b == a;
    } else {
      var last := b[|b| - 1];
      assert (a + b)[..|a + b| - 1] == a + b[..|b| - 1];
      assert (a + b)[|a + b| - 1] == last;
      StoredUrlsAppend(a, b[..|b| - 1]);
    }
  }

  lemma StoredUrlsOne(e: StoredEnvironment)
    ensures StoredUrls([e]) == if StoredUrl(e).Some? then [StoredUrl(e).value] else []
  {
    assert [e][..0] == [];
  }

  /** The environments and the selected environment the dialog starts with.
      With local storage: the stored URLs, then the selected URL (the
      `environmentUrl` prop, else the stored selection) appended iff it is
      truthy and not listed yet. Without: just the prop, when truthy. */
  function InitialEnvironments(localStorageEnabled: bool, environmentUrlProp: Option<string>,
                               stored: Option<seq<StoredEnvironment>>, storedSelection: Option<string>)
    : (r: (Option<string>, seq<string>))
    ensures localStorageEnabled ==>
              var urls := if stored.Some? then StoredUrls(stored.value) else [];
              && r.0 == (if environmentUrlProp.Some? then environmentUrlProp else storedSelection)
              && (if TruthyText(r.0) && r.0.value !in urls then r.1 == urls + [r.0.value] else r.1 == urls)
    ensures !localStorageEnabled ==>
              r == (Some(environmentUrlProp.GetOr("")), if TruthyText(environmentUrlProp) then [environmentUrlProp.value] else [])
  {
    if localStorageEnabled then
      var urls := if stored.Some? then StoredUrls(stored.value) else [];
      var selected := if environmentUrlProp.Some? then environmentUrlProp else storedSelection;
      (selected, if TruthyText(selected) && selected.value !in urls then urls + [selected.value] else urls)
    else
      (Some(environmentUrlProp.GetOr("")), if TruthyText(environmentUrlProp) then [environmentUrlProp.value] else [])
  }

  /** A truthy selected environment is always in the initial list. */
  lemma SelectedEnvironmentIsListed(environmentUrlProp: Option<string>, stored: Option<seq<StoredEnvironment>>,
                                    storedSelection: Option<string>)
    ensures var r := InitialEnvironments(true, environmentUrlProp, stored, storedSelection);
            TruthyText(r.0) ==> r.0.value in r.1
  {
  }

  /** The local-storage branch of the mount effect: collect the stored URLs,
      then push the selected URL if it is new. */
  method LoadEnvironments(environmentUrlProp: Option<string>, stored: Option<seq<StoredEnvironment>>,
                          storedSelection: Option<string>)
    returns (selected: Option<string>, environments: seq<string>)
    ensures (selected, environments) == InitialEnvironments(true, environmentUrlProp, stored, storedSelection)
  {
    environments := [];
    if stored.Some? {
      var entries := stored.value;
      for k := 0 to |entries|
        invariant environments == StoredUrls(entries[..k])
      {
        assert entries[..k + 1][..k] == entries[..k];
        var url := StoredUrl(entries[k]);
        if url.Some? {
          environments := environments + [url.value];
        }
      }
      assert entries[..|entries|] == entries;
    }
    selected := if environmentUrlProp.Some? then environmentUrlProp else storedSelection;
    if TruthyText(selected) && selected.value !in environments {
      environments := environments + [selected.value];
    }
  }

  /** The containers and the selected container the dialog starts with. A
      truthy `containerUrl` prop wins; otherwise, with local storage, the
      stored list (`?? []`) followed by the selected container (the prop when
      not nullish, else the stored selection or '') when it is non-empty and
      new; otherwise nothing is set and the defaults ('' and []) remain. */
  function InitialContainers(containerUrlProp: Option<string>, localStorageEnabled: bool,
                             stored: Option<seq<string>>, storedSelection: Option<string>)
    : (r: (string, seq<string>))
    ensures TruthyText(containerUrlProp) ==> r == (containerUrlProp.value, [containerUrlProp.value])
    ensures !TruthyText(containerUrlProp) && !localStorageEnabled ==> r == ("", [])
    ensures r.0 != "" ==> r.0 in r.1
    ensures !TruthyText(containerUrlProp) && localStorageEnabled ==>
              && r.0 == (if containerUrlProp.Some? then containerUrlProp.value else TextOrEmpty(storedSelection))
              && stored.GetOr([]) <= r.1 && |r.1| <= |stored.GetOr([])| + 1
              && forall c :: c in r.1 <==> c in stored.GetOr([]) || (c == r.0 && c != "")
    ensures !TruthyText(containerUrlProp) && localStorageEnabled ==>
              if r.0 == "" || r.0 in stored.GetOr([]) then r.1 == stored.GetOr([])
              else r.1 == stored.GetOr([]) + [r.0]
  {
    if TruthyText(containerUrlProp) then (containerUrlProp.value, [containerUrlProp.value])
    else if localStorageEnabled then
      var urls := stored.GetOr([]);
      var selected := if containerUrlProp.Some? then containerUrlProp.value else TextOrEmpty(storedSelection);
      (selected, if selected != "" && selected !in urls then urls + [selected] else urls)
    else ("", [])
  }

  // ---------------------------------------------------------------------
  // Merge with the subscription's instances
  // ---------------------------------------------------------------------

  /** An entry already stands for `instance`: the same https URL string, or
      an instance with the same host name. */
  predicate Lists(e: Environment, instance: AdtInstance) {
    match e
    case EnvUrl(s) => s == HttpsPrefix + instance.hostName
    case EnvInstance(i) => i.hostName == instance.hostName
  }

  predicate Listed(environments: seq<Environment>, instance: AdtInstance) {
    exists k :: 0 <= k < |environments| && Lists(environments[k], instance)
  }

  /** The subscription instances the merge appends: valid as https URLs and
      not already listed, in subscription order. */
  function NewInstances(environments: seq<Environment>, subscription: seq<AdtInstance>,
                        parse: UrlParser, adtSuffixes: seq<string>): (r: seq<Environment>)
    ensures forall k :: 0 <= k < |r| ==> r[k].EnvInstance?
    ensures forall i :: EnvInstance(i) in r <==>
              && i in subscription
              && IsValidUrl(HttpsPrefix + i.hostName, EnvironmentUrl, parse, adtSuffixes, [])
              && !Listed(environments, i)
    decreases |subscription|
  {
    if subscription == [] then []
    else
      var i := subscription[|subscription| - 1];
      var front := subscription[..|subscription| - 1];
      assert forall j :: j in subscription <==> j in front || j == i;
      NewInstances(environments, front, parse, adtSuffixes)
        + (if IsValidUrl(HttpsPrefix + i.hostName, EnvironmentUrl, parse, adtSuffixes, []) && !Listed(environments, i)
           then [EnvInstance(i)] else [])
  }

  /** The new instances keep the subscription order: the filter distributes
      over concatenation, and one instance is kept iff it is valid and new. */
  lemma {:induction false} NewInstancesAppend(environments: seq<Environment>, a: seq<AdtInstance>, b: seq<AdtInstance>,
                                              parse: UrlParser, adtSuffixes: seq<string>)
    ensures NewInstances(environments, a + b, parse, adtSuffixes)
         == NewInstances(environments, a, parse, adtSuffixes) + NewInstances(environments, b, parse, adtSuffixes)
    decreases |b|
  {
    if b == [] {
      assert a + b == a;
    } else {
      assert (a + b)[..|a + b| - 1] == a + b[..|b| - 1];
      assert (a + b)[|a + b| - 1] == b[|b| - 1];
      NewInstancesAppend(environments, a, b[..|b| - 1], parse, adtSuffixes);
    }
  }

  lemma NewInstancesOne(environments: seq<Environment>, i: AdtInstance, parse: UrlParser, adtSuffixes: seq<string>)
    ensures NewInstances(environments, [i], parse, adtSuffixes)
         == if IsValidUrl(HttpsPrefix + i.hostName, EnvironmentUrl, parse, adtSuffixes, []) && !Listed(environments, i)
            then [EnvInstance(i)] else []
  {
    assert [i][..0] == [];
  }

  /** The subscription effect: the current entries first, then the new
      instances. */
  function MergeSubscription(environments: seq<Environment>, subscription: seq<AdtInstance>,
                             parse: UrlParser, adtSuffixes: seq<string>): (r: seq<Environment>)
    ensures |r| >= |environments| && r[..|environments|] == environments
    ensures r[|environments|..] == NewInstances(environments, subscription, parse, adtSuffixes)
    ensures forall i :: i in subscription && IsValidUrl(HttpsPrefix + i.hostName, EnvironmentUrl, parse, adtSuffixes, [])
                        ==> Listed(r, i)
  {
    var added := NewInstances(environments, subscription, parse, adtSuffixes);
    var r := environments + added;
    forall i | i in subscription && IsValidUrl(HttpsPrefix + i.hostName, EnvironmentUrl, parse, adtSuffixes, [])
      ensures Listed(r, i)
    {
      if Listed(environments, i) {
        var k :| 0 <= k < |environments| && Lists(environments[k], i);
        assert r[k] == environments[k];
      } else {
        var k :| 0 <= k < |added| && added[k] == EnvInstance(i);
        assert r[|environments| + k] == EnvInstance(i);
      }
    }
    r
  }

  // ---------------------------------------------------------------------
  // Typed input
  // ---------------------------------------------------------------------

  /** A typed environment gets the https prefix iff it lacks it and ends
      with a valid suffix or a valid suffix and '/'. */
  function EnvironmentInput(value: string, adtSuffixes: seq<string>): (r: string)
    ensures r == if !StartsWith(value, HttpsPrefix)
                    && exists k :: 0 <= k < |adtSuffixes|
                         && (EndsWith(value, adtSuffixes[k]) || EndsWith(value, adtSuffixes[k] + "/"))
                 then HttpsPrefix + value else value
  {
    if !StartsWith(value, HttpsPrefix) && EndsWithSuffixOrSlash(value, adtSuffixes) then HttpsPrefix + value
    else value
  }

  function EndsWithSuffixOrSlash(value: string, suffixes: seq<string>): (r: bool)
    ensures r <==> exists k :: 0 <= k < |suffixes|
                     && (EndsWith(value, suffixes[k]) || EndsWith(value, suffixes[k] + "/"))
  {
    if suffixes == [] then false
    else EndsWith(value, suffixes[0]) || EndsWith(value, suffixes[0] + "/")
         || EndsWithSuffixOrSlash(value, suffixes[1..])
  }

  /** Whether an entry has the typed URL's host name, in the as-written
      comparison: for an instance entry the source compares 'https://' plus
      the host name with a bare host name. `None` stands for `new URL(e)`
      throwing on a string entry. */
  function SameHostAsWritten(e: Environment, host: string, parse: UrlParser): Option<bool> {
    match e
    case EnvUrl(s) => if parse(s).Some? then Some(parse(s).value.hostname == host) else None
    case EnvInstance(i) => Some(HttpsPrefix + i.hostName == host)
  }

  /** The evidently intended comparison: an instance entry's host name with
      the typed URL's host name. */
  function SameHost(e: Environment, host: string, parse: UrlParser): Option<bool> {
    match e
    case EnvUrl(s) => if parse(s).Some? then Some(parse(s).value.hostname == host) else None
    case EnvInstance(i) => Some(i.hostName == host)
  }

  /** The comparison the handler uses, as written or corrected. */
  function EntryHost(e: Environment, host: string, parse: UrlParser, asWritten: bool): Option<bool> {
    if asWritten then SameHostAsWritten(e, host, parse) else SameHost(e, host, parse)
  }

  /** `findIndex(...) !== -1`, scanning in order: `None` if the callback
      throws before an entry matches. */
  function HostListed(environments: seq<Environment>, host: string, parse: UrlParser, asWritten: bool)
    : (r: Option<bool>)
    ensures r == Some(false) <==>
              forall k :: 0 <= k < |environments| ==> EntryHost(environments[k], host, parse, asWritten) == Some(false)
  {
    if environments == [] then Some(false)
    else match EntryHost(environments[0], host, parse, asWritten)
      case None => None
      case Some(true) => Some(true)
      case Some(false) => HostListed(environments[1..], host, parse, asWritten)
  }

  /** A host name never contains the '/' of the https prefix, so as written
      an instance entry never matches the typed URL. */
  lemma InstanceEntryNeverMatchesAsWritten(i: AdtInstance, host: string, parse: UrlParser)
    requires '/' !in host
    ensures SameHostAsWritten(EnvInstance(i), host, parse) == Some(false)
  {
    assert (HttpsPrefix + i.hostName)[6] == '/';
    assert '/' in HttpsPrefix + i.hostName;
  }

  /** The outcome of typed environment input: the value to edit and the new
      list, or `None` for the list when the handler throws. */
  datatype InputOutcome = InputOutcome(environmentToEdit: Environment, environments: Option<seq<Environment>>)

  /** `handleOnEnvironmentUrlChange` for typed input (no option picked),
      with the as-written or the corrected entry comparison. */
  function TypedEnvironment(environments: seq<Environment>, value: string, parse: UrlParser,
                            adtSuffixes: seq<string>, asWritten: bool): (r: InputOutcome)
    ensures r.environmentToEdit == EnvUrl(EnvironmentInput(value, adtSuffixes))
    ensures r.environments.Some? ==>
              r.environments.value == environments
              || r.environments.value == environments + [EnvUrl(EnvironmentInput(value, adtSuffixes))]
    ensures !IsValidUrl(EnvironmentInput(value, adtSuffixes), EnvironmentUrl, parse, adtSuffixes, []) ==>
              r.environments == Some(environments)
    ensures r.environments.None? <==>
              && IsValidUrl(EnvironmentInput(value, adtSuffixes), EnvironmentUrl, parse, adtSuffixes, [])
              && HostListed(environments, parse(EnvironmentInput(value, adtSuffixes)).value.hostname, parse, asWritten).None?
  {
    var newVal := EnvironmentInput(value, adtSuffixes);
    if !IsValidUrl(newVal, EnvironmentUrl, parse, adtSuffixes, []) then
      InputOutcome(EnvUrl(newVal), Some(environments))
    else
      var host := parse(newVal).value.hostname;
      match HostListed(environments, host, parse, asWritten)
      case None => InputOutcome(EnvUrl(newVal), None)
      case Some(true) => InputOutcome(EnvUrl(newVal), Some(environments))
      case Some(false) => InputOutcome(EnvUrl(newVal), Some(environments + [EnvUrl(newVal)]))
  }

  /** As written: typing the URL of an environment that is listed as a
      subscription instance appends it a second time. */
  lemma TypedUrlDuplicatesInstanceAsWritten(i: AdtInstance, value: string, parse: UrlParser, adtSuffixes: seq<string>)
    requires IsValidUrl(value, EnvironmentUrl, parse, adtSuffixes, [])
    requires parse(value).value.hostname == i.hostName
    requires '/' !in i.hostName
    ensures EnvironmentInput(value, adtSuffixes) == value
    ensures TypedEnvironment([EnvInstance(i)], value, parse, adtSuffixes, true).environments
         == Some([EnvInstance(i), EnvUrl(value)])
  {
    InstanceEntryNeverMatchesAsWritten(i, i.hostName, parse);
    assert HostListed([EnvInstance(i)], i.hostName, parse, true) == Some(false);
    assert EnvironmentInput(value, adtSuffixes) == value;
    assert [EnvInstance(i)] + [EnvUrl(value)] == [EnvInstance(i), EnvUrl(value)];
  }

  /** Typed input is appended exactly when it is valid and every entry's
      comparison with its host name answers false: as written or, with the
      corrected comparison, when no entry has its host name. */
  lemma TypedEnvironmentIsNew(environments: seq<Environment>, value: string, parse: UrlParser,
                              adtSuffixes: seq<string>, asWritten: bool)
    ensures var newVal := EnvironmentInput(value, adtSuffixes);
            var r := TypedEnvironment(environments, value, parse, adtSuffixes, asWritten);
            r.environments == Some(environments + [EnvUrl(newVal)]) <==>
              && IsValidUrl(newVal, EnvironmentUrl, parse, adtSuffixes, [])
              && forall k :: 0 <= k < |environments| ==>
                   EntryHost(environments[k], parse(newVal).value.hostname, parse, asWritten) == Some(false)
  {
    var newVal := EnvironmentInput(value, adtSuffixes);
    assert |environments + [EnvUrl(newVal)]| != |environments|;
    if IsValidUrl(newVal, EnvironmentUrl, parse, adtSuffixes, []) {
      var host := parse(newVal).value.hostname;
      assert (forall k :: 0 <= k < |environments| ==> EntryHost(environments[k], host, parse, asWritten) == Some(false))
             <==> HostListed(environments, host, parse, asWritten) == Some(false);
    }
  }

  /** `handleOnContainerUrlChange`'s prefixing: a value without the https
      prefix gets it when 'https://' plus the value parses to a host with a
      valid suffix and a path other than '/'. */
  function ContainerInput(value: string, parse: UrlParser, containerSuffixes: seq<string>): (r: string)
    ensures r == value || r == HttpsPrefix + value
    ensures StartsWith(value, HttpsPrefix) ==> r == value
    ensures r == HttpsPrefix + value <==>
      && !StartsWith(value, HttpsPrefix)
      && parse(HttpsPrefix + value).Some?
      && AnySuffix(parse(HttpsPrefix + value).value.hostname, containerSuffixes)
      && parse(HttpsPrefix + value).value.pathname != "/"
  {
    assert |HttpsPrefix + value| > |value|;
    if StartsWith(value, HttpsPrefix) then value
    else match parse(HttpsPrefix + value)
      case None => value
      case Some(u) => if AnySuffix(u.hostname, containerSuffixes) && u.pathname != "/" then HttpsPrefix + value else value
  }

  /** The containers after typed or picked input: appended iff valid and new. */
  function ContainersAfterInput(containers: seq<string>, newVal: string, parse: UrlParser,
                                containerSuffixes: seq<string>): (r: seq<string>)
    ensures containers <= r && |r| <= |containers| + 1
    ensures forall c :: c in r <==> c in containers || (c == newVal && IsValidUrl(newVal, ContainerUrl, parse, [], containerSuffixes))
    ensures newVal in containers ==> r == containers
    ensures !IsValidUrl(newVal, ContainerUrl, parse, [], containerSuffixes) ==> r == containers
  {
    if IsValidUrl(newVal, ContainerUrl, parse, [], containerSuffixes) && newVal !in containers
    then containers + [newVal] else containers
  }

  /** Appending a container never introduces a duplicate. */
  lemma ContainersStayDistinct(containers: seq<string>, newVal: string, parse: UrlParser, containerSuffixes: seq<string>)
    requires forall j, k :: 0 <= j < k < |containers| ==> containers[j] != containers[k]
    ensures var r := ContainersAfterInput(containers, newVal, parse, containerSuffixes);
            forall j, k :: 0 <= j < k < |r| ==> r[j] != r[k]
  {
  }

  // ---------------------------------------------------------------------
  // Removing an option
  // ---------------------------------------------------------------------

  /** The text of an entry's option: the string, or 'https://' and the host name. */
  function OptionText(e: Environment): string {
    match e
    case EnvUrl(s) => s
    case EnvInstance(i) => HttpsPrefix + i.hostName
  }

  /** The entries whose option text differs from `text`, in order. */
  function WithoutOption(environments: seq<Environment>, text: string): (r: seq<Environment>)
    ensures forall k :: 0 <= k < |r| ==> OptionText(r[k]) != text
    ensures forall e :: e in r <==> e in environments && OptionText(e) != text
    ensures |r| <= |environments|
  {
    if environments == [] then []
    else
      var rest := WithoutOption(environments[1..], text);
      assert forall e :: e in environments <==> e == environments[0] || e in environments[1..];
      if OptionText(environments[0]) != text then [environments[0]] + rest else rest
  }

  /** The containers other than `text`, in order. */
  function WithoutContainer(containers: seq<string>, text: string): (r: seq<string>)
    ensures forall c :: c in r <==> c in containers && c != text
    ensures |r| <= |containers|
  {
    if containers == [] then []
    else
      var rest := WithoutContainer(containers[1..], text);
      assert forall c :: c in containers <==> c == containers[0] || c in containers[1..];
      if containers[0] != text then [containers[0]] + rest else rest
  }

  /** Removal keeps order: filtering a concatenation filters each part. */
  lemma {:induction false} WithoutOptionAppend(a: seq<Environment>, b: seq<Environment>, text: string)
    ensures WithoutOption(a + b, text) == WithoutOption(a, text) + WithoutOption(b, text)
  {
    if a == [] {
      assert a + b == b;
    } else {
      assert (a + b)[0] == a[0];
      assert (a + b)[1..] == a[1..] + b;
      WithoutOptionAppend(a[1..], b, text);
    }
  }

  /** A single entry is kept iff its option text differs from `text`. */
  lemma WithoutOptionOne(e: Environment, text: string)
    ensures WithoutOption([e], text) == if OptionText(e) != text then [e] else []
  {
    assert [e][1..] == [];
  }

  /** Removal keeps order: filtering a concatenation filters each part. */
  lemma {:induction false} WithoutContainerAppend(a: seq<string>, b: seq<string>, text: string)
    ensures WithoutContainer(a + b, text) == WithoutContainer(a, text) + WithoutContainer(b, text)
  {
    if a == [] {
      assert a + b == b;
    } else {
      assert (a + b)[0] == a[0];
      assert (a + b)[1..] == a[1..] + b;
      WithoutContainerAppend(a[1..], b, text);
    }
  }

  /** A single container is kept iff it differs from `text`. */
  lemma WithoutContainerOne(c: string, text: string)
    ensures WithoutContainer([c], text) == if c != text then [c] else []
  {
    assert [c][1..] == [];
  }

  /** The dialog state the handlers change. */
  class Picker {
    var environments: seq<Environment>
    var containers: seq<string>
    var environmentToEdit: Option<Environment>
    var containerUrlToEdit: string

    constructor(environments: seq<Environment>, containers: seq<string>,
                environmentToEdit: Option<Environment>, containerUrlToEdit: string)
      ensures this.environments == environments && this.containers == containers
      ensures this.environmentToEdit == environmentToEdit && this.containerUrlToEdit == containerUrlToEdit
    {
      this.environments := environments;
      this.containers := containers;
      this.environmentToEdit := environmentToEdit;
      this.containerUrlToEdit := containerUrlToEdit;
    }

    /** The subscription effect, when the adapter result has data. */
    method OnSubscriptionInstances(subscription: seq<AdtInstance>, parse: UrlParser, adtSuffixes: seq<string>)
      modifies this
      ensures environments == MergeSubscription(old(environments), subscription, parse, adtSuffixes)
      ensures containers == old(containers) && environmentToEdit == old(environmentToEdit)
      ensures containerUrlToEdit == old(containerUrlToEdit)
    {
      environments := MergeSubscription(environments, subscription, parse, adtSuffixes);
    }

    /** `handleOnEnvironmentUrlChange`: a picked option is edited as its
        instance or its text; typed input is prefixed, edited and appended
        when valid and not listed, by the comparison as written (see
        `TypedUrlDuplicatesInstanceAsWritten`). Returns false when the
        handler throws, after the edited value was set. */
    method OnEnvironmentUrlChange(option: Option<(string, Option<AdtInstance>)>, value: string,
                                  parse: UrlParser, adtSuffixes: seq<string>)
      returns (completed: bool)
      modifies this
      ensures option.Some? ==>
                && environmentToEdit == Some(if option.value.1.Some? then EnvInstance(option.value.1.value)
                                             else EnvUrl(option.value.0))
                && environments == old(environments) && completed
      ensures option.None? ==>
                var r := TypedEnvironment(old(environments), value, parse, adtSuffixes, true);
                && environmentToEdit == Some(r.environmentToEdit)
                && completed == r.environments.Some?
                && environments == r.environments.GetOr(old(environments))
      ensures containers == old(containers) && containerUrlToEdit == old(containerUrlToEdit)
    {
      completed := true;
      if option.Some? {
        environmentToEdit := Some(if option.value.1.Some? then EnvInstance(option.value.1.value)
                                  else EnvUrl(option.value.0));
      } else {
        var r := TypedEnvironment(environments, value, parse, adtSuffixes, true);
        environmentToEdit := Some(r.environmentToEdit);
        if r.environments.Some? {
          environments := r.environments.value;
        } else {
          completed := false;
        }
      }
    }

    /** `handleOnContainerUrlChange`. */
    method OnContainerUrlChange(optionText: Option<string>, value: string, parse: UrlParser,
                                containerSuffixes: seq<string>)
      modifies this
      ensures var newVal := ContainerInput(optionText.GetOr(value), parse, containerSuffixes);
              && containerUrlToEdit == newVal
              && containers == ContainersAfterInput(old(containers), newVal, parse, containerSuffixes)
      ensures environments == old(environments) && environmentToEdit == old(environmentToEdit)
    {
      var newVal := ContainerInput(optionText.GetOr(value), parse, containerSuffixes);
      containerUrlToEdit := newVal;
      containers := ContainersAfterInput(containers, newVal, parse, containerSuffixes);
    }

    /** Deleting an environment option: every entry with that option text
        goes, and the edited value is cleared if it was that URL. */
    method RemoveEnvironmentOption(text: string, addHttpsPrefix: string -> string)
      modifies this
      ensures environments == WithoutOption(old(environments), text)
      ensures environmentToEdit == if text == GetUrl(old(environmentToEdit), addHttpsPrefix) then Some(EnvUrl(""))
                                   else old(environmentToEdit)
      ensures containers == old(containers) && containerUrlToEdit == old(containerUrlToEdit)
    {
      environments := WithoutOption(environments, text);
      if text == GetUrl(environmentToEdit, addHttpsPrefix) {
        environmentToEdit := Some(EnvUrl(""));
      }
    }

    /** Deleting a container option. */
    method RemoveContainerOption(text: string)
      modifies this
      ensures containers == WithoutContainer(old(containers), text)
      ensures containerUrlToEdit == if text == old(containerUrlToEdit) then "" else old(containerUrlToEdit)
      ensures environments == old(environments) && environmentToEdit == old(environmentToEdit)
    {
      containers := WithoutContainer(containers, text);
      if text == containerUrlToEdit {
        containerUrlToEdit := "";
      }
    }
  }
}
