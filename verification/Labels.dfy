/** Merge-request labels: what a run derives from its configuration
    (internal/gitlab/labels.go), which labels it may touch, and how it brings the
    server into line (internal/gitlab/labels_sync.go). Label lists are sets here:
    the source only ever reads them as sets and sorts what it lists. */
module Labels {
  import opened Domain
  import opened Text
  import Tokens

  // ----- Scoped labels -----

  /** Where the last "::" of a label starts, or -1. */
  function LastSeparator(tag: string): (i: int)
    ensures i == -1 || (0 <= i && i + 2 <= |tag| && tag[i..i + 2] == "::")
  {
    if |tag| < 2 then -1
    else if tag[|tag| - 2..] == "::" then |tag| - 2
    else
      var i := LastSeparator(tag[..|tag| - 1]);
      assert i >= 0 ==> tag[..|tag| - 1][i..i + 2] == tag[i..i + 2];
      i
  }

  function ScopeOf(tag: string): string {
    var i := LastSeparator(tag);
    if i < 1 || i + 2 == |tag| then "" else tag[..i]
  }

  lemma {:induction false} SeparatorInPrefix(prefix: string, value: string)
    requires ':' !in value
    ensures LastSeparator(prefix + value) == LastSeparator(prefix)
  {
    if |value| == 0 {
      assert prefix + value == prefix;
    } else {
      var tag := prefix + value;
      assert tag[|tag| - 1] == value[|value| - 1] && value[|value| - 1] in value;
      assert tag[..|tag| - 1] == prefix + value[..|value| - 1];
      if |tag| >= 2 {
        assert tag[|tag| - 2..][1] != ':';
        SeparatorInPrefix(prefix, value[..|value| - 1]);
      } else {
        assert prefix == [];
      }
    }
  }

  predicate DoubleColonAt(tag: string, i: int) {
    0 <= i && i + 2 <= |tag| && tag[i] == ':' && tag[i + 1] == ':'
  }

  /** The scope of a label is what stands before its last double colon, if something stands on
      either side of it. */
  lemma ScopeExactly(tag: string, scope: string)
    requires scope != ""
    ensures ScopeOf(tag) == scope <==>
      && scope <= tag && DoubleColonAt(tag, |scope|) && |scope| + 2 < |tag|
      && forall i :: DoubleColonAt(tag, i) ==> i <= |scope|
  {
    LastSeparatorIsLast(tag);
    var i := LastSeparator(tag);
    assert i >= 0 ==> |tag[..i]| == i;
  }

  lemma {:induction false} LastSeparatorIsLast(tag: string)
    ensures forall i :: DoubleColonAt(tag, i) ==> i <= LastSeparator(tag)
    ensures LastSeparator(tag) == -1 || DoubleColonAt(tag, LastSeparator(tag))
  {
    if |tag| >= 2 {
      var front, last := tag[..|tag| - 1], |tag| - 2;
      assert tag[last..] == [tag[last], tag[last + 1]];
      LastSeparatorIsLast(front);
      forall i | DoubleColonAt(tag, i) ensures i == last || DoubleColonAt(front, i) {}
    }
  }

  /** The scope of a generated label comes from its prefix alone. */
  lemma SameScope(prefix: string, a: string, b: string)
    requires ':' !in a && ':' !in b && a != "" && b != ""
    ensures ScopeOf(prefix + a) == ScopeOf(prefix + b)
  {
    SeparatorInPrefix(prefix, a);
    SeparatorInPrefix(prefix, b);
    var i := LastSeparator(prefix);
    if i >= 0 { assert (prefix + a)[..i] == prefix[..i] == (prefix + b)[..i]; }
  }

  // ----- Configuration -----

  datatype Source = FromVerdict | FromCoverage | FromTeam | FromMetadata | FromRequestedModels
                  | FromObservedModels | FromExecutedTools | FromTokenUsage

  datatype Mode = Single | Several

  datatype Missing = Omit | ShowUnknown

  datatype Bucket = Bucket(lessThan: Uint64, tag: string)

  datatype Mapping = Mapping(
    source: Source, mode: Mode, missing: Missing, values: map<string, string>,
    prefix: string, key: string, exact: bool, buckets: seq<Bucket>)

  datatype Settings = Settings(
    fixed: set<string>, reservedNames: set<string>, reservedScopes: set<string>, mappings: seq<Mapping>)

  datatype Input = Input(
    verdict: string, coverage: string, team: string, metadata: map<string, string>, telemetry: Telemetry)

  function BucketLabels(m: Mapping): set<string> {
    set b | b in m.buckets :: b.tag
  }

  // Every label a mapping names, and a sample of those it generates.
  function Outputs(m: Mapping): set<string> {
    m.values.Values + BucketLabels(m) + if m.prefix != "" then {m.prefix + "value"} else {}
  }

  predicate SetSource(s: Source) {
    s in {FromRequestedModels, FromObservedModels, FromExecutedTools}
  }

  predicate ValidMapping(m: Mapping) {
    && (m.mode == Several ==> forall tag :: tag in Outputs(m) ==> ScopeOf(tag) == "")
    && (m.mode == Single ==> forall tag :: tag in Outputs(m) ==> ScopeOf(tag) != "")
    && (SetSource(m.source) ==> m.mode == Several && m.prefix != "" && m.values == map[] && m.buckets == [])
    && (m.source == FromTokenUsage ==>
          m.mode == Single && (if m.exact then m.prefix != "" && m.buckets == [] else m.buckets != []))
    && (m.missing == ShowUnknown && m.prefix == "" ==> "unknown" in m.values && !Blank(m.values["unknown"]))
  }

  /** What configuration loading has checked of the labels. */
  predicate ValidSettings(s: Settings) {
    "" !in s.reservedScopes && forall i :: 0 <= i < |s.mappings| ==> ValidMapping(s.mappings[i])
  }

  // ----- Labels of one mapping -----

  predicate Blank(s: string) {
    forall c :: c in s ==> c in {' ', '\t', '\n', '\r'}
  }

  predicate GoodLabel(tag: string) {
    !Blank(tag) && |tag| <= 255 && '\r' !in tag && '\n' !in tag
  }

  function MissingLabels(m: Mapping): Result<set<string>> {
    if m.missing == Omit then Ok({})
    else if "unknown" in m.values && m.values["unknown"] != "" then Ok({m.values["unknown"]})
    else if m.prefix != "" then Ok({m.prefix + "unknown"})
    else Err
  }

  function MappedSingle(m: Mapping, value: string): Result<set<string>> {
    if Blank(value) || value !in m.values then MissingLabels(m) else Ok({m.values[value]})
  }

  function MappedSet(m: Mapping, values: set<string>): Result<set<string>> {
    var seen := set v | v in values && !Blank(v);
    if seen == {} then MissingLabels(m) else Ok(set v | v in seen :: m.prefix + v)
  }

  function BucketFor(buckets: seq<Bucket>, usage: Uint64): (r: Result<string>)
    ensures r.Ok? ==> exists b :: b in buckets && b.tag == r.value && (b.lessThan == 0 || usage < b.lessThan)
  {
    if |buckets| == 0 then Err
    else if buckets[0].lessThan == 0 || usage < buckets[0].lessThan then Ok(buckets[0].tag)
    else BucketFor(buckets[1..], usage)
  }

  function TokenLabels(m: Mapping, usage: Option<Uint64>): Result<set<string>> {
    if usage.None? then MissingLabels(m)
    else if m.exact then (if m.prefix == "" then Err else Ok({m.prefix + Decimal(usage.value)}))
    else
      var r := BucketFor(m.buckets, usage.value);
      if r.Err? then Err else Ok({r.value})
  }

  function LabelsFor(m: Mapping, input: Input, usage: Option<Uint64>): Result<set<string>> {
    match m.source
    case FromVerdict => MappedSingle(m, input.verdict)
    case FromCoverage => MappedSingle(m, input.coverage)
    case FromTeam => MappedSingle(m, input.team)
    case FromMetadata => MappedSingle(m, if m.key in input.metadata then input.metadata[m.key] else "")
    case FromRequestedModels => MappedSet(m, SetOf(input.telemetry.requested))
    case FromObservedModels => MappedSet(m, set o | o in input.telemetry.observed :: o.model)
    case FromExecutedTools => MappedSet(m, set t | t in input.telemetry.tools :: t.tool)
    case FromTokenUsage => TokenLabels(m, usage)
  }

  // ----- What a configuration manages, whatever the run brings -----

  predicate Managed(tag: string, names: set<string>, scopes: set<string>, prefixes: set<string>) {
    tag in names || ScopeOf(tag) in scopes || exists p :: p in prefixes && p <= tag
  }

  function NamesOf(m: Mapping): set<string> {
    m.values.Values + BucketLabels(m)
  }

  function ScopesOf(m: Mapping): set<string> {
    if m.mode != Single then {}
    else set tag | tag in NamesOf(m) + {m.prefix + "value"} && ScopeOf(tag) != "" :: ScopeOf(tag)
  }

  function PrefixesOf(m: Mapping): set<string> {
    if m.mode == Several && m.prefix != "" then {m.prefix} else {}
  }

  function ManagedNames(s: Settings, n: nat): set<string>
    requires n <= |s.mappings|
  {
    if n == 0 then s.reservedNames + s.fixed else ManagedNames(s, n - 1) + NamesOf(s.mappings[n - 1])
  }

  function ManagedScopes(s: Settings, n: nat): set<string>
    requires n <= |s.mappings|
  {
    if n == 0 then s.reservedScopes + set tag | tag in s.fixed && ScopeOf(tag) != "" :: ScopeOf(tag)
    else ManagedScopes(s, n - 1) + ScopesOf(s.mappings[n - 1])
  }

  function ManagedPrefixes(s: Settings, n: nat): set<string>
    requires n <= |s.mappings|
  {
    if n == 0 then {} else ManagedPrefixes(s, n - 1) + PrefixesOf(s.mappings[n - 1])
  }

  function DesiredUpTo(s: Settings, input: Input, usage: Option<Uint64>, n: nat): Result<set<string>>
    requires n <= |s.mappings|
  {
    if n == 0 then Ok(s.fixed)
    else
      var before, more := DesiredUpTo(s, input, usage, n - 1), LabelsFor(s.mappings[n - 1], input, usage);
      if before.Err? || more.Err? || exists tag :: tag in more.value && !GoodLabel(tag) then Err
      else Ok(before.value + more.value)
  }

  predicate OnePerScope(labels: set<string>) {
    forall a, b :: a in labels && b in labels && ScopeOf(a) == ScopeOf(b) != "" ==> a == b
  }

  datatype LabelPlan = LabelPlan(
    desired: set<string>, names: set<string>, scopes: set<string>, prefixes: set<string>, usage: Option<Uint64>)

  method CheckLabels(labels: set<string>) returns (ok: bool)
    ensures ok <==> forall tag :: tag in labels ==> GoodLabel(tag)
  {
    var rest := labels;
    while rest != {}
      invariant rest <= labels
      invariant forall tag :: tag in labels && tag !in rest ==> GoodLabel(tag)
      decreases |rest|
    {
      var tag :| tag in rest;
      if !GoodLabel(tag) { return false; }
      rest := rest - {tag};
    }
    return true;
  }

  method ValidateDesiredScopes(labels: set<string>) returns (ok: bool)
    ensures ok <==> OnePerScope(labels)
  {
    var scopes: map<string, string> := map[];
    var rest := labels;
    while rest != {}
      invariant rest <= labels
      invariant forall scope :: scope in scopes ==>
        scopes[scope] in labels && scopes[scope] !in rest && ScopeOf(scopes[scope]) == scope != ""
      invariant forall tag :: tag in labels && tag !in rest && ScopeOf(tag) != "" ==>
        ScopeOf(tag) in scopes && scopes[ScopeOf(tag)] == tag
      decreases |rest|
    {
      var tag :| tag in rest;
      rest := rest - {tag};
      var scope := ScopeOf(tag);
      if scope == "" { continue; }
      if scope in scopes && scopes[scope] != tag { return false; }
      scopes := scopes[scope := tag];
    }
    return true;
  }

  // ----- What the derived labels say -----

  // The label for a value that a source did not bring.
  predicate ForMissing(tag: string, m: Mapping) {
    && m.missing == ShowUnknown
    && (if "unknown" in m.values && m.values["unknown"] != "" then m.values["unknown"] == tag
        else m.prefix != "" && tag == m.prefix + "unknown")
  }

  // The label for a single value.
  predicate ForValue(tag: string, m: Mapping, value: string) {
    if !Blank(value) && value in m.values then m.values[value] == tag else ForMissing(tag, m)
  }

  predicate Named(names: set<string>, v: string) {
    v in names && !Blank(v)
  }

  // The labels for a set of names: one for every name, or the one for none.
  ghost predicate ForNames(tag: string, m: Mapping, names: set<string>) {
    if exists v :: Named(names, v) then exists v :: Named(names, v) && tag == m.prefix + v else ForMissing(tag, m)
  }

  predicate Fits(b: Bucket, usage: Uint64) {
    b.lessThan == 0 || usage < b.lessThan
  }

  predicate FirstFitting(tag: string, buckets: seq<Bucket>, usage: Uint64, i: nat)
    requires i < |buckets|
  {
    buckets[i].tag == tag && Fits(buckets[i], usage) && forall j :: 0 <= j < i ==> !Fits(buckets[j], usage)
  }

  predicate ForUsage(tag: string, m: Mapping, usage: Option<Uint64>) {
    if usage.None? then ForMissing(tag, m)
    else if m.exact then m.prefix != "" && tag == m.prefix + Decimal(usage.value)
    else exists i :: 0 <= i < |m.buckets| && FirstFitting(tag, m.buckets, usage.value, i)
  }

  /** Whether a mapping gives a label: what each source reads of the run, and what is
      made of it. */
  ghost predicate GivenFor(tag: string, m: Mapping, input: Input, usage: Option<Uint64>) {
    && (m.source == FromVerdict ==> ForValue(tag, m, input.verdict))
    && (m.source == FromCoverage ==> ForValue(tag, m, input.coverage))
    && (m.source == FromTeam ==> ForValue(tag, m, input.team))
    && (m.source == FromMetadata && m.key in input.metadata ==> ForValue(tag, m, input.metadata[m.key]))
    && (m.source == FromMetadata && m.key !in input.metadata ==> ForMissing(tag, m))
    && (m.source == FromRequestedModels ==> ForNames(tag, m, NamesSeen(FromRequestedModels, input.telemetry)))
    && (m.source == FromObservedModels ==> ForNames(tag, m, NamesSeen(FromObservedModels, input.telemetry)))
    && (m.source == FromExecutedTools ==> ForNames(tag, m, NamesSeen(FromExecutedTools, input.telemetry)))
    && (m.source == FromTokenUsage ==> ForUsage(tag, m, usage))
  }

  // The names a set-valued mapping turns into labels.
  function NamesSeen(source: Source, t: Telemetry): set<string> {
    match source
    case FromRequestedModels => SetOf(t.requested)
    case FromObservedModels => set o | o in t.observed :: o.model
    case FromExecutedTools => set e | e in t.tools :: e.tool
    case _ => {}
  }

  lemma {:induction false} BucketIsFirst(buckets: seq<Bucket>, usage: Uint64, tag: string)
    ensures BucketFor(buckets, usage) == Ok(tag) <==>
      exists i :: 0 <= i < |buckets| && FirstFitting(tag, buckets, usage, i)
  {
    if |buckets| > 0 {
      var tail := buckets[1..];
      BucketIsFirst(tail, usage, tag);
      if Fits(buckets[0], usage) {
        assert buckets[0].tag == tag ==> FirstFitting(tag, buckets, usage, 0);
      } else {
        forall i | 0 <= i < |tail|
          ensures FirstFitting(tag, tail, usage, i) == FirstFitting(tag, buckets, usage, i + 1)
        {
          LaterFits(buckets, usage, tag, i);
        }
        if exists i :: 0 <= i < |buckets| && FirstFitting(tag, buckets, usage, i) {
          var i :| 0 <= i < |buckets| && FirstFitting(tag, buckets, usage, i);
          assert FirstFitting(tag, tail, usage, i - 1);
        }
      }
    }
  }

  lemma LaterFits(buckets: seq<Bucket>, usage: Uint64, tag: string, i: nat)
    requires |buckets| > 0 && !Fits(buckets[0], usage) && i < |buckets[1..]|
    ensures FirstFitting(tag, buckets[1..], usage, i) == FirstFitting(tag, buckets, usage, i + 1)
  {
    var tail := buckets[1..];
    assert forall j :: 0 <= j < |tail| ==> tail[j] == buckets[j + 1];
    if FirstFitting(tag, tail, usage, i) {
      forall j | 0 <= j < i + 1 ensures !Fits(buckets[j], usage) { if j > 0 { assert tail[j - 1] == buckets[j]; } }
    }
  }

  lemma MissingMeans(m: Mapping, tag: string)
    requires MissingLabels(m).Ok?
    ensures tag in MissingLabels(m).value <==> ForMissing(tag, m)
  {
  }

  lemma NamesMean(m: Mapping, names: set<string>, tag: string)
    requires MappedSet(m, names).Ok?
    ensures tag in MappedSet(m, names).value <==> ForNames(tag, m, names)
  {
    var seen := set v | v in names && !Blank(v);
    if seen == {} {
      MissingMeans(m, tag);
      assert forall v :: Named(names, v) ==> v in seen;
    } else {
      var v :| v in seen;
      assert Named(names, v);
      assert forall w :: w in seen <==> Named(names, w);
    }
  }

  /** A mapping that has labels to give gives exactly those its source calls for. */
  lemma LabelsMean(m: Mapping, input: Input, usage: Option<Uint64>, tag: string)
    requires LabelsFor(m, input, usage).Ok?
    ensures tag in LabelsFor(m, input, usage).value <==> GivenFor(tag, m, input, usage)
  {
    hide MappedSet, ForNames, MissingLabels, ForMissing, BucketFor, FirstFitting, Decimal;
    if MissingLabels(m).Ok? { MissingMeans(m, tag); }
    match m.source
    case FromRequestedModels => NamesMean(m, NamesSeen(m.source, input.telemetry), tag);
    case FromObservedModels => NamesMean(m, NamesSeen(m.source, input.telemetry), tag);
    case FromExecutedTools => NamesMean(m, NamesSeen(m.source, input.telemetry), tag);
    case FromTokenUsage => if usage.Some? { BucketIsFirst(m.buckets, usage.value, tag); }
    case _ =>
  }

  ghost predicate GivenBySome(tag: string, s: Settings, input: Input, usage: Option<Uint64>, n: nat)
    requires n <= |s.mappings|
  {
    exists i :: 0 <= i < n && GivenFor(tag, s.mappings[i], input, usage)
  }

  // A label of the wanted set that is fixed or given by a mapping, and good in that case.
  ghost predicate Wanted(tag: string, s: Settings, input: Input, usage: Option<Uint64>, n: nat)
    requires n <= |s.mappings|
  {
    tag in s.fixed || GivenBySome(tag, s, input, usage, n)
  }

  /** The desired labels are the fixed ones and those that some mapping gives; a given
      label is neither blank nor too long nor broken over lines. */
  lemma {:induction false} DesiredExactly(s: Settings, input: Input, usage: Option<Uint64>, n: nat, tag: string)
    requires n <= |s.mappings| && DesiredUpTo(s, input, usage, n).Ok?
    ensures tag in DesiredUpTo(s, input, usage, n).value <==> Wanted(tag, s, input, usage, n)
    ensures GivenBySome(tag, s, input, usage, n) ==>
      !Blank(tag) && |tag| <= 255 && '\r' !in tag && '\n' !in tag
  {
    hide LabelsFor, GivenFor, Blank;
    if n > 0 {
      DesiredExactly(s, input, usage, n - 1, tag);
      LabelsMean(s.mappings[n - 1], input, usage, tag);
      if tag in LabelsFor(s.mappings[n - 1], input, usage).value { assert GoodLabel(tag); }
      if GivenBySome(tag, s, input, usage, n) {
        var i :| 0 <= i < n && GivenFor(tag, s.mappings[i], input, usage);
        assert i < n - 1 ==> GivenBySome(tag, s, input, usage, n - 1);
      }
    }
  }

  lemma {:induction false} NothingDesiredLater(s: Settings, input: Input, usage: Option<Uint64>, k: nat, n: nat)
    requires k <= n <= |s.mappings| && DesiredUpTo(s, input, usage, k).Err?
    ensures DesiredUpTo(s, input, usage, n).Err?
  {
    if k < n { NothingDesiredLater(s, input, usage, k, n - 1); }
  }

  // The usage a run can report: nothing while it is incomplete.
  ghost predicate Reportable(t: Telemetry) {
    t.usageComplete && |t.usage| > 0 ==> Tokens.Countable(SetOf(t.usage))
  }

  ghost function UsageOf(t: Telemetry): Option<Uint64>
    requires Reportable(t)
  {
    if t.usageComplete && |t.usage| > 0 then Some(Tokens.Reported(SetOf(t.usage))) else None
  }

  /** Derivation fails exactly when usage cannot be counted, when a mapping has no label
      to give or gives a bad one, or when two derived labels share a scope. */
  method DeriveLabels(s: Settings, input: Input) returns (r: Result<LabelPlan>)
    ensures r.Ok? <==>
      && Reportable(input.telemetry)
      && var desired := DesiredUpTo(s, input, UsageOf(input.telemetry), |s.mappings|);
         desired.Ok? && OnePerScope(desired.value)
    ensures r.Ok? ==>
      && DesiredUpTo(s, input, r.value.usage, |s.mappings|) == Ok(r.value.desired)
      && OnePerScope(r.value.desired)
      && r.value.names == ManagedNames(s, |s.mappings|)
      && r.value.scopes == ManagedScopes(s, |s.mappings|)
      && r.value.prefixes == ManagedPrefixes(s, |s.mappings|)
    ensures r.Ok? ==>
      if input.telemetry.usageComplete && |input.telemetry.usage| > 0
      then r.value.usage == Some(Tokens.Reported(SetOf(input.telemetry.usage)))
      else r.value.usage == None
    ensures r.Ok? ==> forall tag :: tag in r.value.desired <==> Wanted(tag, s, input, r.value.usage, |s.mappings|)
  {
    hide LabelsFor, ScopesOf, NamesOf, PrefixesOf, Tokens.Reported, Tokens.Countable, GoodLabel, Wanted;
    var names, scopes := s.reservedNames + s.fixed, s.reservedScopes;
    scopes := scopes + set tag | tag in s.fixed && ScopeOf(tag) != "" :: ScopeOf(tag);
    var prefixes: set<string> := {};
    var desired := s.fixed;
    var reported := Tokens.ReportedTokenUsage(input.telemetry);
    if reported.Err? { return Err; }
    var usage := reported.value;
    for n := 0 to |s.mappings|
      invariant names == ManagedNames(s, n) && scopes == ManagedScopes(s, n) && prefixes == ManagedPrefixes(s, n)
      invariant DesiredUpTo(s, input, usage, n) == Ok(desired)
    {
      var m := s.mappings[n];
      names := names + NamesOf(m);
      scopes := scopes + ScopesOf(m);
      prefixes := prefixes + PrefixesOf(m);
      var labels := LabelsFor(m, input, usage);
      if labels.Err? {
        NothingDesiredLater(s, input, usage, n + 1, |s.mappings|);
        return Err;
      }
      var good := CheckLabels(labels.value);
      if !good {
        NothingDesiredLater(s, input, usage, n + 1, |s.mappings|);
        return Err;
      }
      desired := desired + labels.value;
    }
    var exclusive := ValidateDesiredScopes(desired);
    if !exclusive { return Err; }
    forall tag ensures tag in desired <==> Wanted(tag, s, input, usage, |s.mappings|) {
      DesiredExactly(s, input, usage, |s.mappings|, tag);
    }
    return Ok(LabelPlan(desired, names, scopes, prefixes, usage));
  }

  // ----- When derivation fails -----

  // The last bucket a configuration gives may leave large totals without a label.
  predicate BeyondBuckets(buckets: seq<Bucket>, usage: Uint64) {
    forall b :: b in buckets ==> b.lessThan != 0 && usage >= b.lessThan
  }

  lemma {:induction false} NoBucketExactly(buckets: seq<Bucket>, usage: Uint64)
    ensures BucketFor(buckets, usage).Err? <==> BeyondBuckets(buckets, usage)
  {
    if |buckets| > 0 {
      assert buckets == [buckets[0]] + buckets[1..];
      NoBucketExactly(buckets[1..], usage);
    }
  }

  /** A validated mapping has no label to give exactly when it sorts token usage into
      buckets and the total lies beyond them all. */
  lemma MappingFailsExactly(m: Mapping, input: Input, usage: Option<Uint64>)
    requires ValidMapping(m)
    ensures LabelsFor(m, input, usage).Err? <==>
      m.source == FromTokenUsage && !m.exact && usage.Some? && BeyondBuckets(m.buckets, usage.value)
  {
    assert MissingLabels(m).Ok? by {
      if "unknown" in m.values && m.values["unknown"] == "" { assert Blank(m.values["unknown"]); }
    }
    if usage.Some? { NoBucketExactly(m.buckets, usage.value); }
  }

  // What configuration loading has checked of scopes: fixed labels do not compete, and
  // every single-valued mapping has a scope of its own.
  ghost predicate ScopesKeptApart(s: Settings) {
    && OnePerScope(s.fixed)
    && (forall i :: 0 <= i < |s.mappings| && s.mappings[i].mode == Single ==> ScopeIsOwn(s, i))
  }

  predicate OutputOf(tag: string, m: Mapping) {
    m.mode == Single && tag in Outputs(m)
  }

  ghost predicate ScopeIsOwn(s: Settings, i: nat)
    requires i < |s.mappings|
  {
    forall tag :: tag in Outputs(s.mappings[i]) ==>
      && (forall other :: other in Outputs(s.mappings[i]) ==> ScopeOf(other) == ScopeOf(tag))
      && (forall other :: other in s.fixed ==> ScopeOf(other) != ScopeOf(tag))
      && (forall j, other :: 0 <= j < |s.mappings| && j != i && OutputOf(other, s.mappings[j]) ==>
            ScopeOf(other) != ScopeOf(tag))
  }

  predicate Names(m: Mapping, input: Input, v: string) {
    v in NamesSeen(m.source, input.telemetry) && !Blank(v)
  }

  predicate NamedBy(tag: string, m: Mapping, input: Input) {
    exists v :: v in NamesSeen(m.source, input.telemetry) && !Blank(v) && tag == m.prefix + v
  }

  // The labels of a mapping that no name has made.
  function PlainLabels(m: Mapping, input: Input, usage: Option<Uint64>): set<string>
    requires LabelsFor(m, input, usage).Ok?
  {
    set tag | tag in LabelsFor(m, input, usage).value && !NamedBy(tag, m, input)
  }

  // What one mapping gives: at most one label, in the scope of its outputs, or any
  // number of labels without a scope.
  predicate InOwnScope(tags: set<string>, m: Mapping) {
    if m.mode == Several then forall tag :: tag in tags ==> ScopeOf(tag) == ""
    else
      && (forall a, b :: a in tags && b in tags ==> a == b)
      && (forall tag :: tag in tags ==> exists out :: out in Outputs(m) && ScopeOf(tag) == ScopeOf(out))
  }

  lemma GeneratedScope(m: Mapping, value: string)
    requires m.prefix != "" && value != "" && ':' !in value
    ensures ScopeOf(m.prefix + value) == ScopeOf(m.prefix + "value") && m.prefix + "value" in Outputs(m)
  {
    SameScope(m.prefix, value, "value");
  }

  lemma MissingInScope(m: Mapping)
    requires ValidMapping(m) && MissingLabels(m).Ok?
    ensures InOwnScope(MissingLabels(m).value, m)
  {
    if m.prefix != "" { GeneratedScope(m, "unknown"); }
    if "unknown" in m.values { assert m.values["unknown"] in Outputs(m); }
  }

  lemma SingleInScope(m: Mapping, value: string)
    requires ValidMapping(m) && MappedSingle(m, value).Ok?
    ensures InOwnScope(MappedSingle(m, value).value, m)
  {
    if MissingLabels(m).Ok? { MissingInScope(m); }
    if value in m.values { assert m.values[value] in Outputs(m); }
  }

  // A set-valued mapping that gives its label for nothing.
  lemma SetInScope(m: Mapping, input: Input, usage: Option<Uint64>)
    requires ValidMapping(m) && SetSource(m.source) && LabelsFor(m, input, usage).Ok?
    ensures InOwnScope(PlainLabels(m, input, usage), m)
  {
    if MissingLabels(m).Ok? { MissingInScope(m); }
  }

  lemma TokensInScope(m: Mapping, usage: Option<Uint64>)
    requires ValidMapping(m) && m.source == FromTokenUsage && TokenLabels(m, usage).Ok?
    ensures InOwnScope(TokenLabels(m, usage).value, m)
  {
    if MissingLabels(m).Ok? { MissingInScope(m); }
    if usage.Some? && m.exact {
      DecimalIsPlain(usage.value);
      GeneratedScope(m, Decimal(usage.value));
    } else if usage.Some? {
      var b :| b in m.buckets && b.tag == BucketFor(m.buckets, usage.value).value;
      assert b.tag in BucketLabels(m) && b.tag in Outputs(m);
    }
  }

  // Labels that are not made from a name stay in the scope of their mapping.
  lemma MappingInScope(m: Mapping, input: Input, usage: Option<Uint64>)
    requires ValidMapping(m) && LabelsFor(m, input, usage).Ok?
    ensures InOwnScope(PlainLabels(m, input, usage), m)
  {
    hide ValidMapping, MappedSet, MappedSingle, TokenLabels;
    match m.source
    case FromVerdict => SingleInScope(m, input.verdict);
    case FromCoverage => SingleInScope(m, input.coverage);
    case FromTeam => SingleInScope(m, input.team);
    case FromMetadata => SingleInScope(m, if m.key in input.metadata then input.metadata[m.key] else "");
    case FromTokenUsage => TokensInScope(m, usage);
    case _ => SetInScope(m, input, usage);
  }

  // Where a scoped label comes from.
  ghost predicate ScopeFrom(tag: string, s: Settings, n: nat)
    requires n <= |s.mappings|
  {
    || tag in s.fixed
    || exists i, out :: 0 <= i < n && OutputOf(out, s.mappings[i]) && ScopeOf(tag) == ScopeOf(out)
  }

  lemma ScopesStayApart(s: Settings, before: set<string>, more: set<string>, n: nat)
    requires ScopesKeptApart(s) && n < |s.mappings|
    requires OnePerScope(before) && (forall tag :: tag in before && ScopeOf(tag) != "" ==> ScopeFrom(tag, s, n))
    requires InOwnScope(more, s.mappings[n])
    ensures OnePerScope(before + more)
    ensures forall tag :: tag in before + more && ScopeOf(tag) != "" ==> ScopeFrom(tag, s, n + 1)
  {
    forall a, b | a in before && b in more && ScopeOf(a) == ScopeOf(b) ensures ScopeOf(a) == "" {
    }
  }

  lemma DesiredStep(s: Settings, input: Input, usage: Option<Uint64>, n: nat)
    requires 0 < n <= |s.mappings| && DesiredUpTo(s, input, usage, n).Ok?
    ensures DesiredUpTo(s, input, usage, n - 1).Ok? && LabelsFor(s.mappings[n - 1], input, usage).Ok?
    ensures DesiredUpTo(s, input, usage, n).value ==
      DesiredUpTo(s, input, usage, n - 1).value + LabelsFor(s.mappings[n - 1], input, usage).value
  {
  }

  predicate NamedUpTo(tag: string, s: Settings, input: Input, n: nat)
    requires n <= |s.mappings|
  {
    exists i :: 0 <= i < n && NamedBy(tag, s.mappings[i], input)
  }

  // The desired labels that no name has made.
  function PlainUpTo(s: Settings, input: Input, usage: Option<Uint64>, n: nat): set<string>
    requires n <= |s.mappings| && DesiredUpTo(s, input, usage, n).Ok?
  {
    set tag | tag in DesiredUpTo(s, input, usage, n).value && !NamedUpTo(tag, s, input, n)
  }

  lemma Subset(before: set<string>, labels: set<string>)
    requires OnePerScope(before) && labels <= before
    ensures OnePerScope(labels)
  {
  }

  lemma {:induction false} PlainAreExclusive(s: Settings, input: Input, usage: Option<Uint64>, n: nat)
    requires ValidSettings(s) && ScopesKeptApart(s) && n <= |s.mappings|
    requires DesiredUpTo(s, input, usage, n).Ok?
    ensures OnePerScope(PlainUpTo(s, input, usage, n))
    ensures forall tag :: tag in PlainUpTo(s, input, usage, n) && ScopeOf(tag) != "" ==> ScopeFrom(tag, s, n)
  {
    if n == 0 {
      Subset(s.fixed, PlainUpTo(s, input, usage, 0));
    } else {
      DesiredStep(s, input, usage, n);
      PlainAreExclusive(s, input, usage, n - 1);
      hide LabelsFor, ValidMapping, ScopeOf, InOwnScope, ScopeFrom, NamedBy, OnePerScope, DesiredUpTo;
      var m, before := s.mappings[n - 1], PlainUpTo(s, input, usage, n - 1);
      var more := PlainLabels(m, input, usage);
      MappingInScope(m, input, usage);
      ScopesStayApart(s, before, more, n - 1);
      PlainGrows(s, input, usage, n);
      Subset(before + more, PlainUpTo(s, input, usage, n));
    }
  }

  lemma PlainGrows(s: Settings, input: Input, usage: Option<Uint64>, n: nat)
    requires 0 < n <= |s.mappings| && DesiredUpTo(s, input, usage, n).Ok?
    ensures DesiredUpTo(s, input, usage, n - 1).Ok? && LabelsFor(s.mappings[n - 1], input, usage).Ok?
    ensures PlainUpTo(s, input, usage, n) <=
      PlainUpTo(s, input, usage, n - 1) + PlainLabels(s.mappings[n - 1], input, usage)
  {
    hide LabelsFor, NamedBy;
    DesiredStep(s, input, usage, n);
    forall tag | tag in PlainUpTo(s, input, usage, n)
      ensures tag in PlainUpTo(s, input, usage, n - 1) || !NamedBy(tag, s.mappings[n - 1], input)
      ensures tag in PlainUpTo(s, input, usage, n - 1) || tag in LabelsFor(s.mappings[n - 1], input, usage).value
    {
    }
  }

  // The label this mapping makes of this name is the only one of its scope, if it has one.
  predicate AloneInScope(m: Mapping, v: string, labels: set<string>) {
    ScopeOf(m.prefix + v) != "" ==>
      forall tag :: tag in labels && ScopeOf(tag) == ScopeOf(m.prefix + v) ==> tag == m.prefix + v
  }

  lemma NamedIsGiven(m: Mapping, input: Input, usage: Option<Uint64>, v: string)
    requires ValidMapping(m) && Names(m, input, v) && LabelsFor(m, input, usage).Ok?
    ensures m.prefix + v in LabelsFor(m, input, usage).value
  {
    hide ValidMapping, Blank;
    InMappedSet(m, NamesSeen(m.source, input.telemetry), v);
  }

  lemma {:induction false} NamedAreDesired(s: Settings, input: Input, usage: Option<Uint64>, n: nat, i: nat, v: string)
    requires i < n <= |s.mappings| && ValidSettings(s) && DesiredUpTo(s, input, usage, n).Ok?
    requires Names(s.mappings[i], input, v)
    ensures s.mappings[i].prefix + v in DesiredUpTo(s, input, usage, n).value
  {
    hide ValidMapping, LabelsFor, Names, DesiredUpTo;
    DesiredStep(s, input, usage, n);
    if i < n - 1 {
      NamedAreDesired(s, input, usage, n - 1, i, v);
    } else {
      NamedIsGiven(s.mappings[i], input, usage, v);
    }
  }

  /** Under a validated configuration derived labels compete for a scope exactly when
      the label made from some model or tool name has a scope and meets another derived
      label in it. Labels of single-valued mappings never compete among themselves. */
  lemma ExclusiveExactly(s: Settings, input: Input, usage: Option<Uint64>, n: nat)
    requires ValidSettings(s) && ScopesKeptApart(s) && n <= |s.mappings|
    requires DesiredUpTo(s, input, usage, n).Ok?
    ensures var desired := DesiredUpTo(s, input, usage, n).value;
      OnePerScope(desired) <==>
        forall i, v :: 0 <= i < n && Names(s.mappings[i], input, v) ==> AloneInScope(s.mappings[i], v, desired)
  {
    hide DesiredUpTo, ScopeOf, Blank, ValidSettings, NamesSeen;
    var desired := DesiredUpTo(s, input, usage, n).value;
    PlainAreExclusive(s, input, usage, n);
    forall i, v | 0 <= i < n && Names(s.mappings[i], input, v) ensures s.mappings[i].prefix + v in desired {
      NamedAreDesired(s, input, usage, n, i, v);
    }
    if forall i, v :: 0 <= i < n && Names(s.mappings[i], input, v) ==> AloneInScope(s.mappings[i], v, desired) {
      forall a, b | a in desired && b in desired && ScopeOf(a) == ScopeOf(b) != "" ensures a == b {
        if NamedUpTo(a, s, input, n) {
          NamedIsAlone(s, input, n, a, b, desired);
        } else if NamedUpTo(b, s, input, n) {
          NamedIsAlone(s, input, n, b, a, desired);
        } else {
          assert a in PlainUpTo(s, input, usage, n) && b in PlainUpTo(s, input, usage, n);
        }
      }
    }
  }

  lemma NamedIsAlone(s: Settings, input: Input, n: nat, tag: string, other: string, labels: set<string>)
    requires n <= |s.mappings| && NamedUpTo(tag, s, input, n) && other in labels && ScopeOf(other) == ScopeOf(tag) != ""
    requires forall i, v :: 0 <= i < n && Names(s.mappings[i], input, v) ==> AloneInScope(s.mappings[i], v, labels)
    ensures other == tag
  {
    hide ScopeOf, Blank, NamesSeen;
    var i :| 0 <= i < n && NamedBy(tag, s.mappings[i], input);
    var m := s.mappings[i];
    var v :| v in NamesSeen(m.source, input.telemetry) && !Blank(v) && tag == m.prefix + v;
    assert Names(m, input, v) && AloneInScope(m, v, labels);
  }

  /** So they never do as long as no model or tool name holds a colon. */
  lemma DerivedAreExclusive(s: Settings, input: Input, usage: Option<Uint64>, n: nat)
    requires ValidSettings(s) && ScopesKeptApart(s) && n <= |s.mappings|
    requires forall i, v :: 0 <= i < n && Names(s.mappings[i], input, v) ==> ':' !in v
    requires DesiredUpTo(s, input, usage, n).Ok?
    ensures OnePerScope(DesiredUpTo(s, input, usage, n).value)
  {
    hide DesiredUpTo, ScopeOf, ScopesKeptApart;
    ExclusiveExactly(s, input, usage, n);
    forall i, v | 0 <= i < n && Names(s.mappings[i], input, v)
      ensures AloneInScope(s.mappings[i], v, DesiredUpTo(s, input, usage, n).value)
    {
      assert ValidMapping(s.mappings[i]);
      GeneratedScope(s.mappings[i], v);
    }
  }

  lemma ColonScope(stem: string, value: string)
    requires stem != "" && value != "" && ':' !in value
    ensures ScopeOf(stem + "::" + value) == stem
  {
    var prefix := stem + "::";
    SeparatorInPrefix(prefix, value);
    assert prefix[|prefix| - 2..] == "::";
    assert (prefix + value)[..|stem|] == stem;
  }

  lemma InMappedSet(m: Mapping, values: set<string>, value: string)
    requires value in values && !Blank(value)
    ensures MappedSet(m, values).Ok? && m.prefix + value in MappedSet(m, values).value
  {
    hide Blank;
    var seen := set v | v in values && !Blank(v);
    assert value in seen;
  }

  lemma SameSuffix(prefix: string, a: string, b: string)
    requires prefix + a == prefix + b
    ensures a == b
  {
    assert (prefix + a)[|prefix|..] == a && (prefix + b)[|prefix|..] == b;
  }

  lemma ColonIsInk(stem: string, value: string)
    ensures !Blank(stem + "::" + value)
  {
    var s := stem + "::" + value;
    assert s[|stem|] == ':';
    assert ':' in s;
  }

  /** Two model names with the same text before a last double colon are enough to make the
      derivation of a valid configuration fail: their labels share a scope. */
  lemma ColonNamesCompete(m: Mapping, input: Input, usage: Option<Uint64>, stem: string, a: string, b: string)
    requires ValidMapping(m) && m.source == FromObservedModels
    requires a != "" && b != "" && a != b && ':' !in a && ':' !in b
    requires (set o | o in input.telemetry.observed :: o.model) == {stem + "::" + a, stem + "::" + b}
    ensures LabelsFor(m, input, usage).Ok? && !OnePerScope(LabelsFor(m, input, usage).value)
  {
    var x, y := stem + "::" + a, stem + "::" + b;
    ColonIsInk(stem, a);
    ColonIsInk(stem, b);
    hide Blank, ScopeOf;
    var left, right := m.prefix + x, m.prefix + y;
    var scope := m.prefix + stem;
    assert left == scope + "::" + a && right == scope + "::" + b;
    ColonScope(scope, a);
    ColonScope(scope, b);
    if left == right { SameSuffix(scope + "::", a, b); }
    InMappedSet(m, {x, y}, x);
    InMappedSet(m, {x, y}, y);
    hide MappedSet;
    assert LabelsFor(m, input, usage) == MappedSet(m, {x, y});
  }

  // ----- Every derived label is managed -----

  // A mapping names a label for some value or for some bucket.
  ghost predicate NamesTag(m: Mapping, tag: string) {
    (exists k :: k in m.values && m.values[k] == tag) || (exists b :: b in m.buckets && b.tag == tag)
  }

  // A single-valued mapping names or generates a label of this scope.
  ghost predicate ClaimsScope(m: Mapping, scope: string) {
    m.mode == Single && exists out :: (NamesTag(m, out) || out == m.prefix + "value") && ScopeOf(out) == scope
  }

  predicate Prefixes(m: Mapping, tag: string) {
    m.mode == Several && m.prefix != "" && m.prefix <= tag
  }

  ghost predicate MappingClaims(m: Mapping, tag: string) {
    NamesTag(m, tag) || (ScopeOf(tag) != "" && ClaimsScope(m, ScopeOf(tag))) || Prefixes(m, tag)
  }

  ghost predicate ClaimedBySome(s: Settings, tag: string, n: nat)
    requires n <= |s.mappings|
  {
    exists i :: 0 <= i < n && MappingClaims(s.mappings[i], tag)
  }

  ghost predicate FixedScope(s: Settings, scope: string) {
    scope != "" && exists tag :: tag in s.fixed && ScopeOf(tag) == scope
  }

  lemma NamesOfMeans(m: Mapping, tag: string)
    ensures tag in NamesOf(m) <==> NamesTag(m, tag)
  {
  }

  lemma ScopesOfMeans(m: Mapping, scope: string)
    ensures scope in ScopesOf(m) <==> scope != "" && ClaimsScope(m, scope)
  {
    if m.mode == Single {
      forall out ensures out in NamesOf(m) <==> NamesTag(m, out) { NamesOfMeans(m, out); }
    }
  }

  lemma {:induction false} ManagedStep(s: Settings, tag: string, n: nat)
    requires n <= |s.mappings|
    ensures Managed(tag, ManagedNames(s, n), ManagedScopes(s, n), ManagedPrefixes(s, n)) <==>
      || tag in s.reservedNames || tag in s.fixed
      || ScopeOf(tag) in s.reservedScopes || FixedScope(s, ScopeOf(tag))
      || ClaimedBySome(s, tag, n)
  {
    hide ScopeOf, NamesOf, ScopesOf, NamesTag, ClaimsScope;
    if n > 0 {
      var m := s.mappings[n - 1];
      ManagedStep(s, tag, n - 1);
      NamesOfMeans(m, tag);
      ScopesOfMeans(m, ScopeOf(tag));
      assert MappingClaims(m, tag) <==> tag in NamesOf(m) || ScopeOf(tag) in ScopesOf(m) || Prefixes(m, tag);
      assert Prefixes(m, tag) <==> exists p :: p in PrefixesOf(m) && p <= tag;
      if ClaimedBySome(s, tag, n) {
        var i :| 0 <= i < n && MappingClaims(s.mappings[i], tag);
        assert i < n - 1 ==> ClaimedBySome(s, tag, n - 1);
      }
    }
  }

  /** Exactly what a configuration manages, in its own terms: reserved and fixed labels,
      reserved scopes and those of fixed labels, and what some mapping can name. */
  lemma ManagedExactly(s: Settings, p: LabelPlan, tag: string)
    requires p.names == ManagedNames(s, |s.mappings|) && p.scopes == ManagedScopes(s, |s.mappings|)
    requires p.prefixes == ManagedPrefixes(s, |s.mappings|)
    ensures PlanManages(p, tag) <==>
      || tag in s.reservedNames || tag in s.fixed
      || ScopeOf(tag) in s.reservedScopes || FixedScope(s, ScopeOf(tag))
      || ClaimedBySome(s, tag, |s.mappings|)
  {
    hide Managed, ManagedNames, ManagedScopes, ManagedPrefixes, FixedScope, ClaimedBySome, ScopeOf;
    ManagedStep(s, tag, |s.mappings|);
  }

  lemma MissingIsManaged(m: Mapping)
    requires ValidMapping(m) && MissingLabels(m).Ok?
    ensures forall tag :: tag in MissingLabels(m).value ==> Managed(tag, NamesOf(m), ScopesOf(m), PrefixesOf(m))
  {
    if m.prefix != "" { GeneratedIsManaged(m, "unknown"); }
  }

  lemma GeneratedIsManaged(m: Mapping, value: string)
    requires ValidMapping(m) && m.prefix != "" && value != ""
    requires m.mode == Single ==> ':' !in value
    ensures Managed(m.prefix + value, NamesOf(m), ScopesOf(m), PrefixesOf(m))
  {
    var tag := m.prefix + value;
    if m.mode == Several {
      assert m.prefix in PrefixesOf(m) && m.prefix <= tag;
    } else {
      SameScope(m.prefix, value, "value");
      assert m.prefix + "value" in Outputs(m);
      assert ScopeOf(tag) in ScopesOf(m);
    }
  }

  predicate AllManaged(tags: set<string>, m: Mapping) {
    forall tag :: tag in tags ==> Managed(tag, NamesOf(m), ScopesOf(m), PrefixesOf(m))
  }

  lemma SingleIsManaged(m: Mapping, value: string)
    requires ValidMapping(m) && MappedSingle(m, value).Ok?
    ensures AllManaged(MappedSingle(m, value).value, m)
  {
    if MissingLabels(m).Ok? { MissingIsManaged(m); }
  }

  lemma SetIsManaged(m: Mapping, values: set<string>)
    requires ValidMapping(m) && SetSource(m.source) && MappedSet(m, values).Ok?
    ensures AllManaged(MappedSet(m, values).value, m)
  {
    if MissingLabels(m).Ok? { MissingIsManaged(m); }
    assert m.prefix in PrefixesOf(m);
    assert forall v :: m.prefix <= m.prefix + v;
  }

  lemma TokensAreManaged(m: Mapping, usage: Option<Uint64>)
    requires ValidMapping(m) && m.source == FromTokenUsage && TokenLabels(m, usage).Ok?
    ensures AllManaged(TokenLabels(m, usage).value, m)
  {
    if MissingLabels(m).Ok? { MissingIsManaged(m); }
    if usage.Some? && m.exact {
      DecimalIsPlain(usage.value);
      GeneratedIsManaged(m, Decimal(usage.value));
    }
  }

  lemma MappingIsManaged(m: Mapping, input: Input, usage: Option<Uint64>)
    requires ValidMapping(m) && LabelsFor(m, input, usage).Ok?
    ensures AllManaged(LabelsFor(m, input, usage).value, m)
  {
    hide ValidMapping, AllManaged, MappedSet, MappedSingle, TokenLabels;
    match m.source
    case FromVerdict => SingleIsManaged(m, input.verdict);
    case FromCoverage => SingleIsManaged(m, input.coverage);
    case FromTeam => SingleIsManaged(m, input.team);
    case FromMetadata => SingleIsManaged(m, if m.key in input.metadata then input.metadata[m.key] else "");
    case FromRequestedModels => SetIsManaged(m, SetOf(input.telemetry.requested));
    case FromObservedModels => SetIsManaged(m, set o | o in input.telemetry.observed :: o.model);
    case FromExecutedTools => SetIsManaged(m, set t | t in input.telemetry.tools :: t.tool);
    case FromTokenUsage => TokensAreManaged(m, usage);
  }

  /** Under a validated configuration a run only derives labels that configuration
      manages. What is managed does not depend on the run, so labels derived by any
      earlier run can be found and retracted. */
  lemma {:induction false} DerivedAreManaged(s: Settings, input: Input, usage: Option<Uint64>, n: nat)
    requires ValidSettings(s) && n <= |s.mappings| && DesiredUpTo(s, input, usage, n).Ok?
    ensures forall tag :: tag in DesiredUpTo(s, input, usage, n).value ==>
      Managed(tag, ManagedNames(s, n), ManagedScopes(s, n), ManagedPrefixes(s, n))
  {
    if n > 0 {
      DerivedAreManaged(s, input, usage, n - 1);
      hide LabelsFor, ValidMapping, ScopesOf, NamesOf, PrefixesOf, ScopeOf;
      MappingIsManaged(s.mappings[n - 1], input, usage);
    }
  }

  // ----- Synchronising with the server -----

  // What somebody else does to the labels between two requests.
  datatype Meddling = Meddling(add: set<string>, remove: set<string>)

  /** A server that applies what it is told. `others` are the changes other people
      make, one before each request. */
  class LabelServer {
    var labels: set<string>
    var definitions: set<string>
    var others: seq<Meddling>

    constructor (labels: set<string>, definitions: set<string>, others: seq<Meddling>)
      ensures this.labels == labels && this.definitions == definitions && this.others == others
    {
      this.labels := labels;
      this.definitions := definitions;
      this.others := others;
    }

    ghost predicate Undisturbed()
      reads this
    {
      others == []
    }

    method Meddle()
      modifies this`labels, this`others
      ensures old(Undisturbed()) ==> Undisturbed() && labels == old(labels)
      ensures !old(Undisturbed()) ==>
        labels == old(labels) - old(others)[0].remove + old(others)[0].add && others == old(others)[1..]
    {
      if others != [] {
        labels := labels - others[0].remove + others[0].add;
        others := others[1..];
      }
    }

    method Update(add: set<string>, remove: set<string>)
      requires add !! remove
      modifies this`labels, this`others
      ensures old(Undisturbed()) ==> Undisturbed() && labels == old(labels) - remove + add
    {
      Meddle();
      labels := labels - remove + add;
    }

    method Read() returns (current: set<string>)
      modifies this`labels, this`others
      ensures current == labels
      ensures old(Undisturbed()) ==> Undisturbed() && labels == old(labels)
    {
      Meddle();
      current := labels;
    }

    method EnsureDefinitions(desired: set<string>, createMissing: bool) returns (ok: bool)
      modifies this`definitions
      ensures ok <==> createMissing || desired <= old(definitions)
      ensures definitions == if createMissing then old(definitions) + desired else old(definitions)
    {
      if createMissing { definitions := definitions + desired; }
      ok := desired <= definitions;
    }
  }

  predicate PlanManages(p: LabelPlan, tag: string) {
    Managed(tag, p.names, p.scopes, p.prefixes)
  }

  /** What the labels should be: the unmanaged ones and exactly the desired ones. */
  function Settled(current: set<string>, p: LabelPlan): set<string> {
    (set tag | tag in current && !PlanManages(p, tag)) + p.desired
  }

  // Nothing desired is missing and nothing managed is stale.
  predicate Verified(current: set<string>, p: LabelPlan) {
    p.desired <= current && forall tag :: tag in current && PlanManages(p, tag) ==> tag in p.desired
  }

  datatype Synced = Synced(added: set<string>, removed: set<string>, final: set<string>)

  method SyncLabels(server: LabelServer, current: set<string>, p: LabelPlan, createMissing: bool)
    returns (r: Result<Synced>)
    modifies server
    ensures r.Ok? ==> r.value.final == server.labels && Verified(server.labels, p) && OnePerScope(p.desired)
    ensures r.Ok? ==>
      r.value.added == p.desired - current &&
      r.value.removed == set tag | tag in current && PlanManages(p, tag) && tag !in p.desired
    ensures old(server.Undisturbed()) && current == old(server.labels) &&
            OnePerScope(p.desired) && (createMissing || p.desired <= old(server.definitions)) ==>
      r.Ok? && server.Undisturbed() && server.labels == Settled(current, p) &&
      server.definitions == if createMissing then old(server.definitions) + p.desired else old(server.definitions)
    ensures old(server.Undisturbed()) && current == old(server.labels) && r.Ok? ==> forall tag ::
      tag in server.labels <==> tag in p.desired || (tag in old(server.labels) && !PlanManages(p, tag))
  {
    var exclusive := ValidateDesiredScopes(p.desired);
    if !exclusive { return Err; }
    var defined := server.EnsureDefinitions(p.desired, createMissing);
    if !defined { return Err; }
    var add := p.desired - current;
    var remove := set tag | tag in current && PlanManages(p, tag) && tag !in p.desired;
    if add != {} || remove != {} { server.Update(add, remove); }
    var final := server.Read();
    if old(server.Undisturbed()) && current == old(server.labels) {
      SettledIsVerified(current, p);
      DifferencesSettle(current, p, add, remove);
      assert final == current - remove + add;
    }
    var verified := VerifyManagedLabels(final, p);
    if !verified { return Err; }
    return Ok(Synced(add, remove, final));
  }

  method VerifyManagedLabels(current: set<string>, p: LabelPlan) returns (ok: bool)
    ensures ok <==> Verified(current, p)
  {
    var rest := p.desired;
    while rest != {}
      invariant rest <= p.desired
      invariant forall tag :: tag in p.desired && tag !in rest ==> tag in current
      decreases |rest|
    {
      var tag :| tag in rest;
      if tag !in current { return false; }
      rest := rest - {tag};
    }
    rest := current;
    while rest != {}
      invariant rest <= current
      invariant forall tag :: tag in current && tag !in rest && PlanManages(p, tag) ==> tag in p.desired
      decreases |rest|
    {
      var tag :| tag in rest;
      if PlanManages(p, tag) && tag !in p.desired { return false; }
      rest := rest - {tag};
    }
    return true;
  }

  lemma DifferencesSettle(current: set<string>, p: LabelPlan, add: set<string>, remove: set<string>)
    requires add == p.desired - current
    requires remove == set tag | tag in current && PlanManages(p, tag) && tag !in p.desired
    ensures current - remove + add == Settled(current, p)
  {
  }

  lemma SettledIsVerified(current: set<string>, p: LabelPlan)
    ensures Verified(Settled(current, p), p)
  {
  }

  /** Once settled, a second synchronisation has nothing to add or remove. */
  lemma SecondSyncIdle(current: set<string>, p: LabelPlan)
    requires forall tag :: tag in p.desired ==> PlanManages(p, tag)
    ensures var settled := Settled(current, p);
      && p.desired - settled == {}
      && (set tag | tag in settled && PlanManages(p, tag) && tag !in p.desired) == {}
      && Settled(settled, p) == settled
      && forall tag :: tag in settled && PlanManages(p, tag) <==> tag in p.desired
  {
  }

  /** Verified labels hold at most one label in each managed scope. */
  lemma VerifiedOnePerScope(current: set<string>, p: LabelPlan, a: string, b: string)
    requires Verified(current, p) && OnePerScope(p.desired)
    requires a in current && b in current && ScopeOf(a) == ScopeOf(b) && ScopeOf(a) in p.scopes && ScopeOf(a) != ""
    ensures a == b
  {
  }

  /** Labels an earlier run derived under the same configuration do not survive a
      run that no longer derives them. */
  lemma EarlierLabelsRetracted(s: Settings, earlier: Input, usage: Option<Uint64>, p: LabelPlan, current: set<string>,
                               tag: string)
    requires ValidSettings(s)
    requires DesiredUpTo(s, earlier, usage, |s.mappings|).Ok?
    requires tag in DesiredUpTo(s, earlier, usage, |s.mappings|).value
    requires p.names == ManagedNames(s, |s.mappings|) && p.scopes == ManagedScopes(s, |s.mappings|)
    requires p.prefixes == ManagedPrefixes(s, |s.mappings|)
    requires Verified(current, p)
    ensures tag in current <==> tag in p.desired
  {
    DerivedAreManaged(s, earlier, usage, |s.mappings|);
  }

  /** Two synchronisations in a row with the plan of a run: the first settles the
      labels, the second changes nothing. */
  method SyncTwice(server: LabelServer, s: Settings, input: Input)
    returns (r: Result<LabelPlan>, second: Result<Synced>)
    requires ValidSettings(s) && server.Undisturbed()
    modifies server
    ensures r.Ok? ==>
      && server.labels == Settled(old(server.labels), r.value)
      && second.Ok? && second.value.added == {} && second.value.removed == {}
      && forall tag :: tag in server.labels && PlanManages(r.value, tag) <==> tag in r.value.desired
  {
    hide PlanManages, ScopeOf, OnePerScope, ValidMapping, Verified;
    second := Err;
    r := DeriveLabels(s, input);
    if r.Err? { return; }
    var p := r.value;
    DerivedAreManaged(s, input, p.usage, |s.mappings|);
    DesiredManaged(p, s);
    ghost var before := server.labels;
    SecondSyncIdle(before, p);
    var current := server.labels;
    var first := SyncLabels(server, current, p, true);
    current := server.labels;
    second := SyncLabels(server, current, p, true);
  }

  lemma DesiredManaged(p: LabelPlan, s: Settings)
    requires forall tag :: tag in p.desired ==>
      Managed(tag, ManagedNames(s, |s.mappings|), ManagedScopes(s, |s.mappings|), ManagedPrefixes(s, |s.mappings|))
    requires p.names == ManagedNames(s, |s.mappings|) && p.scopes == ManagedScopes(s, |s.mappings|)
    requires p.prefixes == ManagedPrefixes(s, |s.mappings|)
    ensures forall tag :: tag in p.desired ==> PlanManages(p, tag)
  {
  }
}
