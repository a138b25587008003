/**
 Context assembly: providers registered in any order each contribute a section; sections are merged by priority,
 then by provider name, and the assembler checks what the merge returned.
 JSON values enter in serialised form, and JSON sizes as a function of the value.
 */
module ContextAssembly {
  import opened Outcomes
  import opened Ordering
  import TextChunking

  type Data = map<string, string>

  datatype Section = Section(provider: string, priority: nat, data: Data, metadata: Data)

  datatype ContextRequest = ContextRequest(
    task: string, runtimeMetadata: Data, configuration: Data, messageMetadata: seq<Data>)

  // A provider, with what it returns for the request at hand: a section, or None when it raises.
  datatype Provider = Provider(name: string, priority: nat, output: Option<Section>)

  datatype ContextError =
    | DuplicateProvider | BlankName | ProvidersMissing | ProviderFailed | WrongSection | BlankKey
    | LimitExceeded
    | SectionsChanged | WrongSectionCount | WrongProviderNames

  datatype Limits = Limits(
    maxTaskLength: nat, maxMessages: nat, maxSections: nat, maxSectionBytes: nat, maxTotalBytes: nat, maxKeys: nat,
    maxMetadataBytes: nat)

  datatype Context = Context(sections: seq<Section>, data: Data, providerNames: seq<string>, sectionCount: nat)

  // How large things are once serialised.
  datatype Sizes = Sizes(ofData: Data -> nat, ofSection: Section -> nat, ofContext: (seq<Section>, Data) -> nat)

  // ---------- the two orders ----------

  // (-priority, provider)
  predicate SectionLeq(a: Section, b: Section) {
    a.priority > b.priority || (a.priority == b.priority && TextLeq(a.provider, b.provider))
  }

  // (-priority, name)
  predicate ProviderLeq(a: Provider, b: Provider) {
    a.priority > b.priority || (a.priority == b.priority && TextLeq(a.name, b.name))
  }

  lemma SectionLeqIsTotal()
    ensures TotalPreorder(SectionLeq)
  {
    forall a: Section, b: Section ensures SectionLeq(a, b) || SectionLeq(b, a) {
      TextLeqTotal(a.provider, b.provider);
    }
    forall a: Section, b: Section, c: Section | SectionLeq(a, b) && SectionLeq(b, c) ensures SectionLeq(a, c) {
      if a.priority == b.priority == c.priority {
        TextLeqTransitive(a.provider, b.provider, c.provider);
      }
    }
  }

  lemma ProviderLeqIsTotal()
    ensures TotalPreorder(ProviderLeq)
  {
    forall a: Provider, b: Provider ensures ProviderLeq(a, b) || ProviderLeq(b, a) {
      TextLeqTotal(a.name, b.name);
    }
    forall a: Provider, b: Provider, c: Provider | ProviderLeq(a, b) && ProviderLeq(b, c) ensures ProviderLeq(a, c) {
      if a.priority == b.priority == c.priority {
        TextLeqTransitive(a.name, b.name, c.name);
      }
    }
  }

  predicate NamesDistinct(providers: seq<Provider>) {
    forall i, j :: 0 <= i < j < |providers| ==> providers[i].name != providers[j].name
  }

  // ---------- the registry ----------

  predicate HasName(providers: seq<Provider>, name: string) {
    exists i :: 0 <= i < |providers| && providers[i].name == name
  }

  // A blank or taken name is refused.
  function RegisteredWith(registered: seq<Provider>, p: Provider): seq<Provider> {
    if TextChunking.IsBlank(p.name) || HasName(registered, p.name) then registered else registered + [p]
  }

  lemma {:induction false} AtMostOnce(a: seq<Provider>, p: Provider)
    requires NamesDistinct(a)
    ensures multiset(a)[p] <= 1
  {
    if a != [] {
      AtMostOnce(a[1..], p);
      assert a == [a[0]] + a[1..];
      if a[0] == p {
        assert p !in a[1..];
      }
    }
  }

  lemma SortedNamesDistinct(a: seq<Provider>, b: seq<Provider>)
    requires multiset(a) == multiset(b) && NamesDistinct(a)
    ensures NamesDistinct(b)
  {
    SameElements(a, b);
    forall i, j | 0 <= i < j < |b| ensures b[i].name != b[j].name {
      if b[i].name == b[j].name {
        assert b[i] in a && b[j] in a;
        assert b[i] == b[j];
        assert b == b[..j] + [b[j]] + b[j + 1..];
        assert b[..j][i] in multiset(b[..j]);
        assert multiset(b)[b[i]] >= 2;
        AtMostOnce(a, b[i]);
      }
    }
  }

  lemma SortedProviders(registered: seq<Provider>)
    requires NamesDistinct(registered)
    ensures SortedBy(ProviderLeq, Sort(ProviderLeq, registered)) && NamesDistinct(Sort(ProviderLeq, registered))
  {
    ProviderLeqIsTotal();
    SortPermutes(ProviderLeq, registered);
    SortSorts(ProviderLeq, registered);
    SortedNamesDistinct(registered, Sort(ProviderLeq, registered));
  }

  /** The per-assembler registry, in registration order. */
  class ContextProviderRegistry {
    var registered: seq<Provider>

    ghost predicate Valid()
      reads this
    {
      NamesDistinct(registered)
    }

    constructor ()
      ensures Valid() && registered == []
    {
      registered := [];
    }

    method Register(p: Provider) returns (error: Option<ContextError>)
      requires Valid()
      modifies this
      ensures Valid()
      ensures registered == RegisteredWith(old(registered), p)
      ensures error == if TextChunking.IsBlank(p.name) then Some(BlankName)
                       else if HasName(old(registered), p.name) then Some(DuplicateProvider)
                       else None
    {
      if TextChunking.IsBlank(p.name) {
        return Some(BlankName);
      }
      if HasName(registered, p.name) {
        return Some(DuplicateProvider);
      }
      registered := registered + [p];
      error := None;
    }

    // All providers, by descending priority and then by name.
    method Providers() returns (ordered: seq<Provider>)
      requires Valid()
      ensures SortedBy(ProviderLeq, ordered) && multiset(ordered) == multiset(registered) && NamesDistinct(ordered)
    {
      ordered := Sort(ProviderLeq, registered);
      SortPermutes(ProviderLeq, registered);
      SortedProviders(registered);
    }
  }

  function RegisteredAll(registered: seq<Provider>, arrivals: seq<Provider>): seq<Provider> {
    if arrivals == [] then registered
    else RegisteredWith(RegisteredAll(registered, arrivals[..|arrivals| - 1]), arrivals[|arrivals| - 1])
  }

  // The registry once n providers have been awaited, when `arrivals(k)` are registered during the k-th await.
  function AfterAwaits(registered: seq<Provider>, arrivals: nat -> seq<Provider>, n: nat): seq<Provider> {
    if n == 0 then registered else RegisteredAll(AfterAwaits(registered, arrivals, n - 1), arrivals(n - 1))
  }

  predicate IsPrefix(a: seq<Provider>, b: seq<Provider>) { |a| <= |b| && b[..|a|] == a }

  lemma {:induction false} RegisteringOnlyAdds(registered: seq<Provider>, arrivals: seq<Provider>)
    requires NamesDistinct(registered)
    ensures NamesDistinct(RegisteredAll(registered, arrivals))
            && IsPrefix(registered, RegisteredAll(registered, arrivals))
  {
    if arrivals != [] {
      RegisteringOnlyAdds(registered, arrivals[..|arrivals| - 1]);
    }
  }

  lemma {:induction false} AwaitsOnlyAdd(registered: seq<Provider>, arrivals: nat -> seq<Provider>, n: nat)
    requires NamesDistinct(registered)
    ensures NamesDistinct(AfterAwaits(registered, arrivals, n))
    ensures IsPrefix(registered, AfterAwaits(registered, arrivals, n))
  {
    if n > 0 {
      var earlier, later := AfterAwaits(registered, arrivals, n - 1), AfterAwaits(registered, arrivals, n);
      AwaitsOnlyAdd(registered, arrivals, n - 1);
      RegisteringOnlyAdds(earlier, arrivals(n - 1));
      assert later[..|registered|] == later[..|earlier|][..|registered|];
    }
  }

  // A provider is registered exactly when its name is not blank and not taken.
  lemma RegisteredExactly(registered: seq<Provider>, p: Provider)
    ensures RegisteredWith(registered, p) ==
            if TextChunking.HasText(p.name) && (forall q :: q in registered ==> q.name != p.name) then registered + [p]
            else registered
  {
    TextChunking.BlankExactly(p.name);
    if HasName(registered, p.name) {
      var i :| 0 <= i < |registered| && registered[i].name == p.name;
      assert registered[i] in registered;
    }
  }

  // None of these could be registered.
  predicate AddNothing(registered: seq<Provider>, arrivals: seq<Provider>) {
    forall p :: p in arrivals ==> RegisteredWith(registered, p) == registered
  }

  lemma AddNothingSnoc(registered: seq<Provider>, arrivals: seq<Provider>)
    requires arrivals != []
    ensures AddNothing(registered, arrivals) <==>
            && AddNothing(registered, arrivals[..|arrivals| - 1])
            && RegisteredWith(registered, arrivals[|arrivals| - 1]) == registered
  {
    assert arrivals == arrivals[..|arrivals| - 1] + [arrivals[|arrivals| - 1]];
  }

  lemma {:induction false} NothingAddedExactly(registered: seq<Provider>, arrivals: seq<Provider>)
    requires NamesDistinct(registered)
    ensures RegisteredAll(registered, arrivals) == registered <==> AddNothing(registered, arrivals)
    decreases |arrivals|
  {
    if arrivals != [] {
      var front := arrivals[..|arrivals| - 1];
      NothingAddedExactly(registered, front);
      RegisteringOnlyAdds(registered, front);
      AddNothingSnoc(registered, arrivals);
      if RegisteredAll(registered, front) != registered {
        assert |RegisteredAll(registered, front)| > |registered|;
      }
    }
  }

  lemma OneMoreAwait(registered: seq<Provider>, arrivals: nat -> seq<Provider>, n: nat)
    requires NamesDistinct(registered)
    ensures AfterAwaits(registered, arrivals, n + 1) == registered <==>
            AfterAwaits(registered, arrivals, n) == registered && AddNothing(registered, arrivals(n))
  {
    var earlier := AfterAwaits(registered, arrivals, n);
    AwaitsOnlyAdd(registered, arrivals, n);
    RegisteringOnlyAdds(earlier, arrivals(n));
    NothingAddedExactly(registered, arrivals(n));
    if earlier != registered {
      assert |earlier| > |registered|;
    }
  }

  predicate HasGrown(registered: seq<Provider>, arrivals: nat -> seq<Provider>, n: nat) {
    |AfterAwaits(registered, arrivals, n)| > |registered|
  }

  lemma GrownExactly(registered: seq<Provider>, arrivals: nat -> seq<Provider>, n: nat)
    requires NamesDistinct(registered)
    ensures HasGrown(registered, arrivals, n) <==> AfterAwaits(registered, arrivals, n) != registered
  {
    AwaitsOnlyAdd(registered, arrivals, n);
  }

  lemma OneMoreGrows(registered: seq<Provider>, arrivals: nat -> seq<Provider>, n: nat)
    requires NamesDistinct(registered)
    ensures HasGrown(registered, arrivals, n + 1) <==>
            HasGrown(registered, arrivals, n) || !AddNothing(registered, arrivals(n))
  {
    GrownExactly(registered, arrivals, n);
    GrownExactly(registered, arrivals, n + 1);
    OneMoreAwait(registered, arrivals, n);
  }

  lemma GrowsOn(registered: seq<Provider>, arrivals: nat -> seq<Provider>, n: nat)
    requires NamesDistinct(registered) && HasGrown(registered, arrivals, n)
    ensures HasGrown(registered, arrivals, n + 1)
  {
    AwaitsOnlyAdd(registered, arrivals, n);
    RegisteringOnlyAdds(AfterAwaits(registered, arrivals, n), arrivals(n));
  }

  lemma {:induction false} StaysGrown(registered: seq<Provider>, arrivals: nat -> seq<Provider>, k: nat, n: nat)
    requires NamesDistinct(registered) && k <= n && HasGrown(registered, arrivals, k)
    ensures HasGrown(registered, arrivals, n)
    decreases n
  {
    if k < n {
      StaysGrown(registered, arrivals, k, n - 1);
      GrowsOn(registered, arrivals, n - 1);
    }
  }

  lemma ArrivalGrows(registered: seq<Provider>, arrivals: nat -> seq<Provider>, n: nat, k: nat)
    requires NamesDistinct(registered) && k < n && !AddNothing(registered, arrivals(k))
    ensures HasGrown(registered, arrivals, n)
  {
    OneMoreGrows(registered, arrivals, k);
    StaysGrown(registered, arrivals, k + 1, n);
  }

  lemma {:induction false} QuietMeansUnchanged(registered: seq<Provider>, arrivals: nat -> seq<Provider>, n: nat)
    requires NamesDistinct(registered) && forall k: nat :: k < n ==> AddNothing(registered, arrivals(k))
    ensures AfterAwaits(registered, arrivals, n) == registered
  {
    if n > 0 {
      QuietMeansUnchanged(registered, arrivals, n - 1);
      OneMoreAwait(registered, arrivals, n - 1);
    }
  }

  // The registry has changed by the time all providers have answered exactly when, during some await, another task
  // registered a provider that could be registered.
  lemma AwaitsChangeExactly(registered: seq<Provider>, arrivals: nat -> seq<Provider>, n: nat)
    requires NamesDistinct(registered)
    ensures AfterAwaits(registered, arrivals, n) == registered <==>
            forall k: nat :: k < n ==> AddNothing(registered, arrivals(k))
  {
    GrownExactly(registered, arrivals, n);
    if AfterAwaits(registered, arrivals, n) == registered {
      forall k: nat | k < n ensures AddNothing(registered, arrivals(k)) {
        if !AddNothing(registered, arrivals(k)) {
          ArrivalGrows(registered, arrivals, n, k);
        }
      }
    }
    if forall k: nat :: k < n ==> AddNothing(registered, arrivals(k)) {
      QuietMeansUnchanged(registered, arrivals, n);
    }
  }

  // Providers with distinct names can be put in order in one way only.
  lemma OrderIsUnique(providers: seq<Provider>, ordered: seq<Provider>)
    requires NamesDistinct(providers)
    requires SortedBy(ProviderLeq, ordered) && multiset(ordered) == multiset(providers)
    ensures ordered == Sort(ProviderLeq, providers)
  {
    var s := Sort(ProviderLeq, providers);
    ProviderLeqIsTotal();
    SortPermutes(ProviderLeq, providers);
    SortSorts(ProviderLeq, providers);
    SameElements(s, providers);
    forall i, j | 0 <= i < |s| && 0 <= j < |s| && ProviderLeq(s[i], s[j]) && ProviderLeq(s[j], s[i])
      ensures s[i] == s[j]
    {
      TextLeqAntisymmetric(s[i].name, s[j].name);
      assert s[i] in providers && s[j] in providers;
    }
    SortedIsUnique(ProviderLeq, s, ordered);
  }

  // The order of providers does not depend on the order of registration.
  lemma ProviderOrderIsCanonical(a: seq<Provider>, b: seq<Provider>)
    requires multiset(a) == multiset(b) && NamesDistinct(a)
    ensures Sort(ProviderLeq, a) == Sort(ProviderLeq, b)
  {
    ProviderLeqIsTotal();
    SortPermutes(ProviderLeq, b);
    SortSorts(ProviderLeq, b);
    OrderIsUnique(a, Sort(ProviderLeq, b));
  }

  // ---------- the merge ----------

  // The first section that has a key provides its value.
  function MergedData(sections: seq<Section>): Data {
    if sections == [] then map[]
    else sections[|sections| - 1].data + MergedData(sections[..|sections| - 1])
  }

  // merged.setdefault(key, data[key]) for every key
  method SetDefaults(merged: Data, data: Data) returns (result: Data)
    ensures result == data + merged
  {
    result := merged;
    var keys := data.Keys;
    while keys != {}
      invariant keys <= data.Keys
      invariant result == (map k | k in data && k !in keys :: data[k]) + merged
      decreases keys
    {
      var key :| key in keys;
      keys := keys - {key};
      if key !in result {
        result := result[key := data[key]];
      }
    }
    assert (map k | k in data && k !in keys :: data[k]) == data;
  }

  method MergeSections(sections: seq<Section>) returns (ordered: seq<Section>, merged: Data)
    ensures ordered == Sort(SectionLeq, sections)
    ensures merged == MergedData(ordered)
  {
    ordered := Sort(SectionLeq, sections);
    merged := map[];
    for i := 0 to |ordered|
      invariant merged == MergedData(ordered[..i])
    {
      assert ordered[..i + 1][..i] == ordered[..i];
      merged := SetDefaults(merged, ordered[i].data);
    }
    assert ordered[..|ordered|] == ordered;
  }

  ghost predicate IsFirstHolder(sections: seq<Section>, key: string, i: nat) {
    i < |sections| && key in sections[i].data && forall j :: 0 <= j < i ==> key !in sections[j].data
  }

  lemma {:induction false} HeldKeyIsMerged(sections: seq<Section>, i: nat, key: string)
    requires i < |sections| && key in sections[i].data
    ensures key in MergedData(sections)
  {
    var front := sections[..|sections| - 1];
    if i < |front| {
      HeldKeyIsMerged(front, i, key);
    }
  }

  lemma {:induction false} FirstHolder(sections: seq<Section>, key: string) returns (i: nat)
    requires key in MergedData(sections)
    ensures IsFirstHolder(sections, key, i) && MergedData(sections)[key] == sections[i].data[key]
  {
    var front, last := sections[..|sections| - 1], |sections| - 1;
    if key in MergedData(front) {
      i := FirstHolder(front, key);
      assert forall j :: 0 <= j <= i ==> front[j] == sections[j];
    } else {
      i := last;
      forall j | 0 <= j < last ensures key !in sections[j].data {
        if key in sections[j].data {
          HeldKeyIsMerged(front, j, key);
        }
      }
    }
  }

  lemma FirstSectionWins(sections: seq<Section>, key: string)
    ensures key in MergedData(sections) <==> exists i :: 0 <= i < |sections| && key in sections[i].data
    ensures key in MergedData(sections) ==>
              exists i: nat :: IsFirstHolder(sections, key, i) && MergedData(sections)[key] == sections[i].data[key]
  {
    if key in MergedData(sections) {
      var i := FirstHolder(sections, key);
    }
    if exists i :: 0 <= i < |sections| && key in sections[i].data {
      var i :| 0 <= i < |sections| && key in sections[i].data;
      HeldKeyIsMerged(sections, i, key);
    }
  }

  predicate Holds(section: Section, key: string) { key in section.data }

  // Of the sections with this key, none comes before this one.
  ghost predicate IsHighestHolder(sections: seq<Section>, key: string, s: Section) {
    s in sections && Holds(s, key) && forall t :: t in sections && Holds(t, key) ==> SectionLeq(s, t)
  }

  lemma SortedSections(sections: seq<Section>)
    ensures SortedBy(SectionLeq, Sort(SectionLeq, sections))
    ensures forall s :: s in Sort(SectionLeq, sections) <==> s in sections
  {
    SectionLeqIsTotal();
    SortPermutes(SectionLeq, sections);
    SortSorts(SectionLeq, sections);
    SameElements(Sort(SectionLeq, sections), sections);
  }

  lemma FirstHolderIsHighest(ordered: seq<Section>, key: string, i: nat)
    requires SortedBy(SectionLeq, ordered) && IsFirstHolder(ordered, key, i)
    ensures IsHighestHolder(ordered, key, ordered[i])
  {
    forall t | t in ordered && Holds(t, key) ensures SectionLeq(ordered[i], t) {
      var j :| 0 <= j < |ordered| && ordered[j] == t;
      TextLeqTotal(t.provider, t.provider);
    }
  }

  // Every key gets the value of the highest-priority section holding it, ties going to the least name.
  lemma HighestPriorityWins(sections: seq<Section>, key: string)
    ensures var merged := MergedData(Sort(SectionLeq, sections));
            && (key in merged <==> exists s :: s in sections && Holds(s, key))
            && (key in merged ==> exists s :: IsHighestHolder(sections, key, s) && merged[key] == s.data[key])
  {
    var ordered := Sort(SectionLeq, sections);
    SortedSections(sections);
    if key in MergedData(ordered) {
      var i := FirstHolder(ordered, key);
      FirstHolderIsHighest(ordered, key, i);
      assert IsHighestHolder(sections, key, ordered[i]);
    }
    if exists s :: s in sections && Holds(s, key) {
      var s :| s in sections && Holds(s, key);
      assert s in ordered;
      var i :| 0 <= i < |ordered| && ordered[i] == s;
      HeldKeyIsMerged(ordered, i, key);
    }
  }

  // ---------- the assembler ----------

  predicate HasBlankKey(data: Data) { exists k :: k in data && TextChunking.IsBlank(k) }

  // _validate_json_mapping
  function MappingFault(data: Data, limits: Limits, sizes: Sizes): Option<ContextError> {
    if HasBlankKey(data) then Some(BlankKey)
    else if |data| > limits.maxKeys || sizes.ofData(data) > limits.maxMetadataBytes then Some(LimitExceeded)
    else None
  }

  // What a provider's turn comes to.
  function Contribution(p: Provider, limits: Limits, sizes: Sizes): Result<Section, ContextError> {
    if p.output.None? then Err(ProviderFailed)
    else
      var section := p.output.value;
      if section.provider != p.name || section.priority != p.priority then Err(WrongSection)
      else if |section.data| > limits.maxKeys then Err(LimitExceeded)
      else if MappingFault(section.data, limits, sizes).Some? then Err(MappingFault(section.data, limits, sizes).value)
      else if MappingFault(section.metadata, limits, sizes).Some? then
        Err(MappingFault(section.metadata, limits, sizes).value)
      else if sizes.ofSection(section) > limits.maxSectionBytes then Err(LimitExceeded)
      else Ok(section)
  }

  function Collected(providers: seq<Provider>, limits: Limits, sizes: Sizes): Result<seq<Section>, ContextError> {
    if providers == [] then Ok([])
    else
      var earlier := Collected(providers[..|providers| - 1], limits, sizes);
      if earlier.Err? then earlier
      else
        match Contribution(providers[|providers| - 1], limits, sizes)
        case Err(e) => Err(e)
        case Ok(section) => Ok(earlier.value + [section])
  }

  function Names(providers: seq<Provider>): seq<string> {
    seq(|providers|, i requires 0 <= i < |providers| => providers[i].name)
  }

  function SectionNames(sections: seq<Section>): seq<string> {
    seq(|sections|, i requires 0 <= i < |sections| => sections[i].provider)
  }

  // _validate_merged_context
  function MergedFault(context: Context, sections: seq<Section>, limits: Limits, sizes: Sizes): Option<ContextError> {
    if Sort(TextLeq, SectionNames(context.sections)) != Sort(TextLeq, SectionNames(sections)) then Some(SectionsChanged)
    else if context.sectionCount != |sections| then Some(WrongSectionCount)
    else if context.providerNames != SectionNames(context.sections) then Some(WrongProviderNames)
    else MappingFault(context.data, limits, sizes)
  }

  predicate AllPresent(required: set<string>, registered: seq<Provider>) {
    forall name :: name in required ==> name in Names(registered)
  }

  function MappingsFault(mappings: seq<Data>, limits: Limits, sizes: Sizes): Option<ContextError> {
    if mappings == [] then None
    else
      var first := MappingFault(mappings[0], limits, sizes);
      if first.Some? then first else MappingsFault(mappings[1..], limits, sizes)
  }

  // _validate_request
  function RequestFault(request: ContextRequest, limits: Limits, sizes: Sizes): Option<ContextError> {
    if |request.task| > limits.maxTaskLength || |request.messageMetadata| > limits.maxMessages then Some(LimitExceeded)
    else MappingsFault([request.runtimeMetadata, request.configuration] + request.messageMetadata, limits, sizes)
  }

  // The merge of the collected sections and the checks of what it returns.
  function MergedContext(sections: seq<Section>, later: seq<Provider>, limits: Limits, sizes: Sizes)
    : Result<Context, ContextError>
  {
    var ordered := Sort(SectionLeq, sections);
    var data := MergedData(ordered);
    if sizes.ofContext(ordered, data) > limits.maxTotalBytes then Err(LimitExceeded)
    else
      var context := Context(ordered, data, Names(Sort(ProviderLeq, later)), |sections|);
      var fault := MergedFault(context, sections, limits, sizes);
      if fault.Some? then Err(fault.value) else Ok(context)
  }

  // build_context. `registered` is the registry when the request arrives and `later` when all providers have
  // answered: providers are awaited, and another task may register more meanwhile.
  function Assembled(
    request: ContextRequest, registered: seq<Provider>, later: seq<Provider>, required: set<string>, limits: Limits,
    sizes: Sizes)
    : Result<Context, ContextError>
  {
    if RequestFault(request, limits, sizes).Some? then Err(RequestFault(request, limits, sizes).value)
    else if !AllPresent(required, registered) then Err(ProvidersMissing)
    else if |registered| > limits.maxSections then Err(LimitExceeded)
    else
      var collected := Collected(Sort(ProviderLeq, registered), limits, sizes);
      if collected.Err? then Err(collected.error) else MergedContext(collected.value, later, limits, sizes)
  }

  lemma CollectedSnoc(providers: seq<Provider>, i: nat, limits: Limits, sizes: Sizes)
    requires i < |providers| && Collected(providers[..i], limits, sizes).Ok?
    ensures Collected(providers[..i + 1], limits, sizes) ==
            match Contribution(providers[i], limits, sizes)
            case Err(e) => Err(e)
            case Ok(section) => Ok(Collected(providers[..i], limits, sizes).value + [section])
  {
    assert providers[..i + 1][..i] == providers[..i];
  }

  lemma {:induction false} CollectedFailsEarly(providers: seq<Provider>, limits: Limits, sizes: Sizes, n: nat)
    requires n <= |providers| && Collected(providers[..n], limits, sizes).Err?
    ensures Collected(providers, limits, sizes) == Collected(providers[..n], limits, sizes)
    decreases |providers| - n
  {
    if n == |providers| {
      assert providers[..n] == providers;
    } else {
      assert providers[..n + 1][..n] == providers[..n];
      CollectedFailsEarly(providers, limits, sizes, n + 1);
    }
  }

  /** Collects, checks and merges what the registered providers contribute. */
  class AgentContextAssembler {
    const registry: ContextProviderRegistry
    const required: set<string>
    const limits: Limits
    const sizes: Sizes

    constructor (registry: ContextProviderRegistry, required: set<string>, limits: Limits, sizes: Sizes)
      ensures this.registry == registry && this.required == required && this.limits == limits && this.sizes == sizes
    {
      this.registry, this.required, this.limits, this.sizes := registry, required, limits, sizes;
    }

    // Other tasks register these while a provider is awaited.
    method RegisterAll(arrivals: seq<Provider>)
      requires registry.Valid()
      modifies registry
      ensures registry.Valid()
      ensures registry.registered == RegisteredAll(old(registry.registered), arrivals)
    {
      ghost var was := registry.registered;
      for i := 0 to |arrivals|
        invariant registry.Valid() && registry.registered == RegisteredAll(was, arrivals[..i])
      {
        assert arrivals[..i + 1][..i] == arrivals[..i];
        var _ := registry.Register(arrivals[i]);
      }
      assert arrivals[..|arrivals|] == arrivals;
    }

    // The loop over the providers; `awaited` counts those it has come to.
    method CollectSections(providers: seq<Provider>, arrivals: nat -> seq<Provider>)
      returns (r: Result<seq<Section>, ContextError>, ghost awaited: nat)
      requires registry.Valid()
      modifies registry
      ensures registry.Valid()
      ensures r == Collected(providers, limits, sizes)
      ensures registry.registered == AfterAwaits(old(registry.registered), arrivals, awaited)
      ensures awaited <= |providers| && (r.Ok? ==> awaited == |providers|)
    {
      ghost var was := registry.registered;
      var sections: seq<Section> := [];
      awaited := 0;
      for i := 0 to |providers|
        invariant registry.Valid() && registry.registered == AfterAwaits(was, arrivals, i) && awaited == i
        invariant Collected(providers[..i], limits, sizes) == Ok(sections)
      {
        RegisterAll(arrivals(i));
        awaited := i + 1;
        var contribution := Contribution(providers[i], limits, sizes);
        CollectedSnoc(providers, i, limits, sizes);
        if contribution.Err? {
          CollectedFailsEarly(providers, limits, sizes, i + 1);
          r := Err(contribution.error);
          return;
        }
        sections := sections + [contribution.value];
      }
      assert providers[..|providers|] == providers;
      r := Ok(sections);
    }

    method MergeAndCheck(sections: seq<Section>, later: seq<Provider>) returns (r: Result<Context, ContextError>)
      requires later == Sort(ProviderLeq, registry.registered)
      ensures r == MergedContext(sections, registry.registered, limits, sizes)
    {
      var ordered, data := MergeSections(sections);
      if sizes.ofContext(ordered, data) > limits.maxTotalBytes {
        return Err(LimitExceeded);
      }
      var context := Context(ordered, data, Names(later), |sections|);
      var fault := MergedFault(context, sections, limits, sizes);
      r := if fault.Some? then Err(fault.value) else Ok(context);
    }

    // `arrivals(k)` are the providers other tasks register while the k-th provider is awaited.
    method BuildContext(request: ContextRequest, arrivals: nat -> seq<Provider>)
      returns (r: Result<Context, ContextError>)
      requires registry.Valid()
      modifies registry
      ensures registry.Valid()
      ensures var was := old(registry.registered);
              r == Assembled(request, was, AfterAwaits(was, arrivals, |was|), required, limits, sizes)
      ensures IsPrefix(old(registry.registered), registry.registered)
    {
      var fault := RequestFault(request, limits, sizes);
      if fault.Some? {
        return Err(fault.value);
      }
      if !AllPresent(required, registry.registered) {
        return Err(ProvidersMissing);
      }
      ghost var was := registry.registered;
      var providers := registry.Providers();
      OrderIsUnique(was, providers);
      SameElements(was, providers);
      if |providers| > limits.maxSections {
        return Err(LimitExceeded);
      }
      var collected, awaited := CollectSections(providers, arrivals);
      AwaitsOnlyAdd(was, arrivals, awaited);
      if collected.Err? {
        return Err(collected.error);
      }
      var later := registry.Providers();
      OrderIsUnique(registry.registered, later);
      r := MergeAndCheck(collected.value, later);
    }
  }

  // ---------- what is accepted ----------

  // Data the checks let through: no key of white space alone, not too many keys, not too large.
  predicate IsAcceptableData(data: Data, limits: Limits, sizes: Sizes) {
    && (forall k :: k in data ==> TextChunking.HasText(k))
    && |data| <= limits.maxKeys && sizes.ofData(data) <= limits.maxMetadataBytes
  }

  lemma MappingExactly(data: Data, limits: Limits, sizes: Sizes)
    ensures MappingFault(data, limits, sizes).None? <==> IsAcceptableData(data, limits, sizes)
  {
    forall k | k in data
      ensures TextChunking.IsBlank(k) <==> !TextChunking.HasText(k)
    {
      TextChunking.BlankExactly(k);
    }
  }

  // A provider's turn is accepted exactly when it returns a section under its own name and priority, whose data and
  // metadata are acceptable and which is not too large; and that very section is what it contributes.
  lemma ContributionExactly(p: Provider, limits: Limits, sizes: Sizes)
    ensures Contribution(p, limits, sizes).Ok? <==>
            && p.output.Some?
            && p.output.value.provider == p.name && p.output.value.priority == p.priority
            && IsAcceptableData(p.output.value.data, limits, sizes)
            && IsAcceptableData(p.output.value.metadata, limits, sizes)
            && sizes.ofSection(p.output.value) <= limits.maxSectionBytes
    ensures Contribution(p, limits, sizes).Ok? ==> p.output == Some(Contribution(p, limits, sizes).value)
    ensures Contribution(p, limits, sizes).Err? ==>
              (Contribution(p, limits, sizes).error == ProviderFailed <==> p.output.None?)
  {
    if p.output.Some? {
      MappingExactly(p.output.value.data, limits, sizes);
      MappingExactly(p.output.value.metadata, limits, sizes);
    }
  }

  // These are the providers' own accepted sections, in order.
  predicate AreContributions(sections: seq<Section>, providers: seq<Provider>, limits: Limits, sizes: Sizes) {
    && |sections| == |providers|
    && forall i :: 0 <= i < |providers| ==> Contribution(providers[i], limits, sizes) == Ok(sections[i])
  }

  predicate AllContribute(providers: seq<Provider>, limits: Limits, sizes: Sizes) {
    forall p :: p in providers ==> Contribution(p, limits, sizes).Ok?
  }

  lemma AllContributeSnoc(providers: seq<Provider>, limits: Limits, sizes: Sizes)
    requires providers != []
    ensures AllContribute(providers, limits, sizes) <==>
            && AllContribute(providers[..|providers| - 1], limits, sizes)
            && Contribution(providers[|providers| - 1], limits, sizes).Ok?
  {
    assert providers == providers[..|providers| - 1] + [providers[|providers| - 1]];
  }

  lemma ContributionsSnoc(
    sections: seq<Section>, section: Section, providers: seq<Provider>, limits: Limits, sizes: Sizes)
    requires providers != [] && AreContributions(sections, providers[..|providers| - 1], limits, sizes)
    requires Contribution(providers[|providers| - 1], limits, sizes) == Ok(section)
    ensures AreContributions(sections + [section], providers, limits, sizes)
  {
    forall i | 0 <= i < |sections| ensures Contribution(providers[i], limits, sizes) == Ok(sections[i]) {
      assert providers[..|providers| - 1][i] == providers[i];
    }
  }

  // All sections are collected exactly when every provider's turn is accepted, and then they are the providers' own
  // sections in the order of the providers.
  lemma {:induction false} CollectedExactly(providers: seq<Provider>, limits: Limits, sizes: Sizes)
    ensures Collected(providers, limits, sizes).Ok? <==> AllContribute(providers, limits, sizes)
    ensures Collected(providers, limits, sizes).Ok? ==>
              AreContributions(Collected(providers, limits, sizes).value, providers, limits, sizes)
  {
    if providers != [] {
      var front, last := providers[..|providers| - 1], providers[|providers| - 1];
      CollectedExactly(front, limits, sizes);
      AllContributeSnoc(providers, limits, sizes);
      if Collected(providers, limits, sizes).Ok? {
        ContributionsSnoc(
          Collected(front, limits, sizes).value, Contribution(last, limits, sizes).value, providers, limits, sizes);
      }
    }
  }

  lemma {:induction false} MappingsExactly(mappings: seq<Data>, limits: Limits, sizes: Sizes)
    ensures MappingsFault(mappings, limits, sizes).None? <==>
            forall i :: 0 <= i < |mappings| ==> IsAcceptableData(mappings[i], limits, sizes)
  {
    if mappings != [] {
      MappingExactly(mappings[0], limits, sizes);
      MappingsExactly(mappings[1..], limits, sizes);
      assert mappings == [mappings[0]] + mappings[1..];
    }
  }

  // The request itself is accepted exactly when its task and its messages are not too many, and all its mappings are
  // acceptable.
  lemma RequestExactly(request: ContextRequest, limits: Limits, sizes: Sizes)
    ensures RequestFault(request, limits, sizes).None? <==>
            && |request.task| <= limits.maxTaskLength && |request.messageMetadata| <= limits.maxMessages
            && IsAcceptableData(request.runtimeMetadata, limits, sizes)
            && IsAcceptableData(request.configuration, limits, sizes)
            && forall i :: 0 <= i < |request.messageMetadata| ==>
                 IsAcceptableData(request.messageMetadata[i], limits, sizes)
  {
    var all := [request.runtimeMetadata, request.configuration] + request.messageMetadata;
    MappingsExactly(all, limits, sizes);
    assert all[0] == request.runtimeMetadata && all[1] == request.configuration;
    assert forall i :: 0 <= i < |request.messageMetadata| ==> all[i + 2] == request.messageMetadata[i];
  }

  // The checks a merged context must pass, on any context a merge may return.
  lemma MergedPassesExactly(context: Context, sections: seq<Section>, limits: Limits, sizes: Sizes)
    ensures MergedFault(context, sections, limits, sizes).None? <==>
            && Sort(TextLeq, SectionNames(context.sections)) == Sort(TextLeq, SectionNames(sections))
            && context.sectionCount == |sections|
            && |context.providerNames| == |context.sections|
            && (forall i :: 0 <= i < |context.sections| ==> context.providerNames[i] == context.sections[i].provider)
            && IsAcceptableData(context.data, limits, sizes)
  {
    MappingExactly(context.data, limits, sizes);
  }

  // ---------- what assembly promises ----------

  // This section is the one its provider was asked for, and its data have no fault.
  predicate FollowsProvider(section: Section, p: Provider, limits: Limits, sizes: Sizes) {
    && section.provider == p.name && section.priority == p.priority
    && MappingFault(section.data, limits, sizes).None?
  }

  lemma ContributionFollowsProvider(p: Provider, limits: Limits, sizes: Sizes)
    requires Contribution(p, limits, sizes).Ok?
    ensures FollowsProvider(Contribution(p, limits, sizes).value, p, limits, sizes)
  {
  }

  predicate FollowProviders(sections: seq<Section>, providers: seq<Provider>, limits: Limits, sizes: Sizes) {
    && |sections| == |providers|
    && forall i :: 0 <= i < |providers| ==> FollowsProvider(sections[i], providers[i], limits, sizes)
  }

  lemma FollowSnoc(sections: seq<Section>, section: Section, providers: seq<Provider>, limits: Limits, sizes: Sizes)
    requires providers != [] && FollowProviders(sections, providers[..|providers| - 1], limits, sizes)
    requires FollowsProvider(section, providers[|providers| - 1], limits, sizes)
    ensures FollowProviders(sections + [section], providers, limits, sizes)
  {
    forall i | 0 <= i < |sections| ensures FollowsProvider(sections[i], providers[i], limits, sizes) {
      assert providers[..|providers| - 1][i] == providers[i];
    }
  }

  lemma {:induction false} CollectedFollowsProviders(providers: seq<Provider>, limits: Limits, sizes: Sizes)
    requires Collected(providers, limits, sizes).Ok?
    ensures FollowProviders(Collected(providers, limits, sizes).value, providers, limits, sizes)
  {
    if providers != [] {
      var front, last := providers[..|providers| - 1], providers[|providers| - 1];
      CollectedFollowsProviders(front, limits, sizes);
      ContributionFollowsProvider(last, limits, sizes);
      FollowSnoc(
        Collected(front, limits, sizes).value, Contribution(last, limits, sizes).value, providers, limits, sizes);
    }
  }

  // Sections that follow sorted providers are sorted themselves, and no two of them tie.
  lemma {:induction false} SortedSectionsStay(providers: seq<Provider>, sections: seq<Section>)
    requires SortedBy(ProviderLeq, providers) && NamesDistinct(providers) && |sections| == |providers|
    requires forall i :: 0 <= i < |providers| ==>
               sections[i].provider == providers[i].name && sections[i].priority == providers[i].priority
    ensures Sort(SectionLeq, sections) == sections
  {
    forall i, j | 0 <= i < j < |sections| ensures SectionLeq(sections[i], sections[j]) {
      assert ProviderLeq(providers[i], providers[j]);
    }
    forall i, j | 0 <= i < |sections| && 0 <= j < |sections|
                  && SectionLeq(sections[i], sections[j]) && SectionLeq(sections[j], sections[i])
      ensures sections[i] == sections[j]
    {
      TextLeqAntisymmetric(sections[i].provider, sections[j].provider);
      assert providers[i].name == providers[j].name;
    }
    SectionLeqIsTotal();
    SortPermutes(SectionLeq, sections);
    SortSorts(SectionLeq, sections);
    SortedIsUnique(SectionLeq, sections, Sort(SectionLeq, sections));
  }

  // Sections arrive already sorted, so the merge keeps their order.
  lemma MergeKeepsOrder(registered: seq<Provider>, limits: Limits, sizes: Sizes)
    requires NamesDistinct(registered) && Collected(Sort(ProviderLeq, registered), limits, sizes).Ok?
    ensures var sections := Collected(Sort(ProviderLeq, registered), limits, sizes).value;
            Sort(SectionLeq, sections) == sections
  {
    var providers := Sort(ProviderLeq, registered);
    SortedProviders(registered);
    CollectedFollowsProviders(providers, limits, sizes);
    SortedSectionsStay(providers, Collected(providers, limits, sizes).value);
  }

  lemma NamesAreOfProviders(providers: seq<Provider>, name: string)
    ensures name in Names(providers) <==> exists p :: p in providers && p.name == name
  {
    if name in Names(providers) {
      var i :| 0 <= i < |providers| && Names(providers)[i] == name;
      assert providers[i] in providers;
    }
    if exists p :: p in providers && p.name == name {
      var p :| p in providers && p.name == name;
      var i :| 0 <= i < |providers| && providers[i] == p;
      assert Names(providers)[i] == name;
    }
  }

  // The assembled context does not depend on the order in which the providers were registered.
  lemma AssemblyIgnoresRegistrationOrder(
    request: ContextRequest, a: seq<Provider>, b: seq<Provider>, required: set<string>, limits: Limits, sizes: Sizes)
    requires NamesDistinct(a) && multiset(a) == multiset(b)
    ensures Assembled(request, a, a, required, limits, sizes) == Assembled(request, b, b, required, limits, sizes)
  {
    ProviderOrderIsCanonical(a, b);
    SameElements(a, b);
    forall name ensures name in Names(a) <==> name in Names(b) {
      NamesAreOfProviders(a, name);
      NamesAreOfProviders(b, name);
    }
  }

  // The assembler's complaints about the shape of a merged context, as opposed to its size.
  predicate IsStructural(e: ContextError) {
    e.SectionsChanged? || e.WrongSectionCount? || e.WrongProviderNames? || e.BlankKey?
  }

  lemma MergedKeyComesFromSection(sections: seq<Section>, key: string) returns (i: nat)
    requires key in MergedData(sections)
    ensures i < |sections| && key in sections[i].data
  {
    i := FirstHolder(sections, key);
  }

  lemma MergedKeysComeFromSections(sections: seq<Section>)
    requires forall i :: 0 <= i < |sections| ==> !HasBlankKey(sections[i].data)
    ensures !HasBlankKey(MergedData(sections))
  {
    if HasBlankKey(MergedData(sections)) {
      var key :| key in MergedData(sections) && TextChunking.IsBlank(key);
      var i := MergedKeyComesFromSection(sections, key);
      assert HasBlankKey(sections[i].data);
    }
  }

  // What merging and checking the collected sections comes to. The only structural complaint left is that the
  // registry's order of names has changed while the providers were awaited.
  lemma MergedContextExactly(registered: seq<Provider>, later: seq<Provider>, limits: Limits, sizes: Sizes)
    requires NamesDistinct(registered) && Collected(Sort(ProviderLeq, registered), limits, sizes).Ok?
    ensures var providers := Sort(ProviderLeq, registered);
            var sections := Collected(providers, limits, sizes).value;
            MergedContext(sections, later, limits, sizes) ==
            if sizes.ofContext(sections, MergedData(sections)) > limits.maxTotalBytes then Err(LimitExceeded)
            else if Names(Sort(ProviderLeq, later)) != Names(providers) then Err(WrongProviderNames)
            else if MappingFault(MergedData(sections), limits, sizes).Some? then Err(LimitExceeded)
            else Ok(Context(sections, MergedData(sections), Names(providers), |sections|))
  {
    var providers := Sort(ProviderLeq, registered);
    var sections := Collected(providers, limits, sizes).value;
    MergeKeepsOrder(registered, limits, sizes);
    CollectedFollowsProviders(providers, limits, sizes);
    MergedKeysComeFromSections(sections);
    assert SectionNames(sections) == Names(providers);
  }

  // The ordered names change exactly when some provider was registered meanwhile.
  lemma NamesChangeExactly(registered: seq<Provider>, later: seq<Provider>)
    requires IsPrefix(registered, later)
    ensures Names(Sort(ProviderLeq, later)) == Names(Sort(ProviderLeq, registered)) <==> later == registered
  {
    SortPermutes(ProviderLeq, registered);
    SortPermutes(ProviderLeq, later);
    SameElements(Sort(ProviderLeq, registered), registered);
    SameElements(Sort(ProviderLeq, later), later);
    assert |Names(Sort(ProviderLeq, later))| == |later| && |Names(Sort(ProviderLeq, registered))| == |registered|;
  }

  // Once the request and every provider's section have been accepted and the whole is not too large, assembly fails
  // structurally exactly when a provider was registered meanwhile; otherwise only a limit can refuse it.
  lemma StructuralChecksFailExactly(
    request: ContextRequest, registered: seq<Provider>, later: seq<Provider>, required: set<string>, limits: Limits,
    sizes: Sizes)
    requires NamesDistinct(registered) && IsPrefix(registered, later)
    requires RequestFault(request, limits, sizes).None?
    requires Collected(Sort(ProviderLeq, registered), limits, sizes).Ok?
    requires var sections := Collected(Sort(ProviderLeq, registered), limits, sizes).value;
             && sizes.ofContext(sections, MergedData(sections)) <= limits.maxTotalBytes
             && |registered| <= limits.maxSections && AllPresent(required, registered)
    ensures var r := Assembled(request, registered, later, required, limits, sizes);
            && (r.Err? && IsStructural(r.error) <==> later != registered)
            && (r.Err? && !IsStructural(r.error) ==> r.error == LimitExceeded)
  {
    MergedContextExactly(registered, later, limits, sizes);
    NamesChangeExactly(registered, later);
  }

  lemma {:induction false} MappingsFaultKinds(mappings: seq<Data>, limits: Limits, sizes: Sizes)
    ensures MappingsFault(mappings, limits, sizes) in {None, Some(BlankKey), Some(LimitExceeded)}
  {
    if mappings != [] {
      MappingsFaultKinds(mappings[1..], limits, sizes);
    }
  }

  lemma RequestFaultIsNotStructural(request: ContextRequest, limits: Limits, sizes: Sizes)
    ensures RequestFault(request, limits, sizes) in {None, Some(BlankKey), Some(LimitExceeded)}
  {
    MappingsFaultKinds([request.runtimeMetadata, request.configuration] + request.messageMetadata, limits, sizes);
  }

  lemma {:induction false} NotStructural(providers: seq<Provider>, limits: Limits, sizes: Sizes)
    requires Collected(providers, limits, sizes).Err?
    ensures Collected(providers, limits, sizes).error in {ProviderFailed, WrongSection, BlankKey, LimitExceeded}
  {
    if Collected(providers[..|providers| - 1], limits, sizes).Err? {
      NotStructural(providers[..|providers| - 1], limits, sizes);
    }
  }

  lemma PresentExactly(required: set<string>, registered: seq<Provider>)
    ensures AllPresent(required, registered) <==>
            forall name :: name in required ==> exists p :: p in registered && p.name == name
  {
    forall name ensures name in Names(registered) <==> exists p :: p in registered && p.name == name {
      NamesAreOfProviders(registered, name);
    }
  }

  // The collected sections are within the limits on the whole.
  predicate FitsTogether(sections: seq<Section>, limits: Limits, sizes: Sizes) {
    && sizes.ofContext(sections, MergedData(sections)) <= limits.maxTotalBytes
    && |MergedData(sections)| <= limits.maxKeys && sizes.ofData(MergedData(sections)) <= limits.maxMetadataBytes
  }

  lemma MergedExactly(registered: seq<Provider>, later: seq<Provider>, limits: Limits, sizes: Sizes)
    requires NamesDistinct(registered) && IsPrefix(registered, later)
    requires Collected(Sort(ProviderLeq, registered), limits, sizes).Ok?
    ensures var providers := Sort(ProviderLeq, registered);
            var sections := Collected(providers, limits, sizes).value;
            var merged := MergedContext(sections, later, limits, sizes);
            && (merged.Ok? <==> later == registered && FitsTogether(sections, limits, sizes))
            && (merged.Ok? ==>
                  merged.value == Context(sections, MergedData(sections), Names(providers), |registered|))
  {
    var providers := Sort(ProviderLeq, registered);
    var sections := Collected(providers, limits, sizes).value;
    CollectedFollowsProviders(providers, limits, sizes);
    MergedContextExactly(registered, later, limits, sizes);
    NamesChangeExactly(registered, later);
    MergedKeysComeFromSections(sections);
    SortPermutes(ProviderLeq, registered);
    SameElements(providers, registered);
  }

  // What a context is assembled from: an acceptable request, all required providers, not too many of them, an accepted
  // section from each, an unchanged registry, and limits on the whole that hold.
  predicate CanAssemble(
    request: ContextRequest, registered: seq<Provider>, later: seq<Provider>, required: set<string>, limits: Limits,
    sizes: Sizes)
  {
    var collected := Collected(Sort(ProviderLeq, registered), limits, sizes);
    && |request.task| <= limits.maxTaskLength && |request.messageMetadata| <= limits.maxMessages
    && IsAcceptableData(request.runtimeMetadata, limits, sizes)
    && IsAcceptableData(request.configuration, limits, sizes)
    && (forall i :: 0 <= i < |request.messageMetadata| ==>
          IsAcceptableData(request.messageMetadata[i], limits, sizes))
    && (forall name :: name in required ==> exists p :: p in registered && p.name == name)
    && |registered| <= limits.maxSections
    && collected.Ok? && later == registered && FitsTogether(collected.value, limits, sizes)
  }

  // A context is assembled exactly then, and it holds the providers' sections in provider order, their merged data and
  // their names.
  lemma AssembledExactly(
    request: ContextRequest, registered: seq<Provider>, later: seq<Provider>, required: set<string>, limits: Limits,
    sizes: Sizes)
    requires NamesDistinct(registered) && IsPrefix(registered, later)
    ensures Assembled(request, registered, later, required, limits, sizes).Ok? <==>
            CanAssemble(request, registered, later, required, limits, sizes)
    ensures Assembled(request, registered, later, required, limits, sizes).Ok? ==>
              var sections := Collected(Sort(ProviderLeq, registered), limits, sizes).value;
              Assembled(request, registered, later, required, limits, sizes).value ==
              Context(sections, MergedData(sections), Names(Sort(ProviderLeq, registered)), |registered|)
  {
    var providers := Sort(ProviderLeq, registered);
    RequestExactly(request, limits, sizes);
    PresentExactly(required, registered);
    if Collected(providers, limits, sizes).Ok? {
      MergedExactly(registered, later, limits, sizes);
    }
  }

  // A fixed registry: no structural error, and the context is the merge of the providers' own sections.
  lemma FixedRegistryNeverFailsStructurally(
    request: ContextRequest, registered: seq<Provider>, required: set<string>, limits: Limits, sizes: Sizes)
    requires NamesDistinct(registered)
    ensures var r := Assembled(request, registered, registered, required, limits, sizes);
            && (r.Err? ==> !r.error.SectionsChanged? && !r.error.WrongSectionCount? && !r.error.WrongProviderNames?)
            && (r.Ok? ==> r.value.providerNames == Names(Sort(ProviderLeq, registered))
                          && r.value.data == MergedData(r.value.sections))
  {
    var providers := Sort(ProviderLeq, registered);
    if Collected(providers, limits, sizes).Ok? {
      MergedContextExactly(registered, registered, limits, sizes);
    } else {
      NotStructural(providers, limits, sizes);
    }
    RequestFaultIsNotStructural(request, limits, sizes);
  }
}
