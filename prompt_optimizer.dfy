/**
 * The prompt optimizer: a total map from the user's free-text request to the
 * instruction sent to the language model. Seven extractors look for keywords in
 * the lower-cased request; their results are spliced into a fixed template.
 *
 * Each keyword extractor is described twice: once as the source writes it (a
 * chain of `if`s, or a list built by successive pushes), and once as a
 * declarative table of (patterns, tag) rules read either "first match wins"
 * or "cumulatively"; lemmas show the two agree and state what the tables mean.
 */
module PromptOptimizer {
  import opened Types
  import opened Text

  // ---------------------------------------------------------------------------
  // Keyword tables
  // ---------------------------------------------------------------------------

  /** A rule chooses `tag` when the lower-cased text contains any of `patterns`. */
  datatype Rule = Rule(patterns: seq<string>, tag: string)

  predicate Fires(rule: Rule, text: string) {
    ContainsAny(text, rule.patterns)
  }

  predicate ContainsAny(text: string, patterns: seq<string>) {
    |patterns| > 0 && (Contains(text, patterns[0]) || ContainsAny(text, patterns[1..]))
  }

  /** The labels of the rules that fire, in table order. */
  function Matched(rules: seq<Rule>, text: string): seq<string> {
    if rules == [] then []
    else (if Fires(rules[0], text) then [rules[0].tag] else []) + Matched(rules[1..], text)
  }

  /** Cumulative reading: every firing tag, joined with ", ", or the default when none fires. */
  function Cumulative(rules: seq<Rule>, text: string, default: string): string {
    var m := Matched(rules, text);
    if m == [] then default else Join(m, ", ")
  }

  /** First-match reading: the tag of the first rule that fires, or the default. */
  function FirstWins(rules: seq<Rule>, text: string, default: string): string {
    if rules == [] then default
    else if Fires(rules[0], text) then rules[0].tag
    else FirstWins(rules[1..], text, default)
  }

  predicate DistinctLabels(rules: seq<Rule>) {
    forall i, j :: 0 <= i < j < |rules| ==> rules[i].tag != rules[j].tag
  }

  /** The default cannot be mistaken for a joined list of labels: it starts with none of them. */
  predicate DefaultIsNotALabelList(rules: seq<Rule>, default: string) {
    forall i :: 0 <= i < |rules| ==> !StartsWith(default, rules[i].tag)
  }

  const JobFunctionRules: seq<Rule> := [
    Rule(["deal sourcer", "deal sourcing"], "Deal Sourcers"),
    Rule(["deal originator"], "Deal Originators"),
    Rule(["investment"], "Investment Professionals"),
    Rule(["analyst"], "Investment Analysts"),
    Rule(["associate"], "Investment Associates"),
    Rule(["principal"], "Principals"),
    Rule(["partner"], "Partners")
  ]
  const JobFunctionsDefault := "Investment professionals, deal sourcers, analysts"

  const IndustryRules: seq<Rule> := [
    Rule(["venture capital", "vc"], "Venture Capital"),
    Rule(["private equity", "pe"], "Private Equity"),
    Rule(["investment bank"], "Investment Banking")
  ]
  const IndustryDefault := "Investment/Financial Services"

  const LocationRules: seq<Rule> := [
    Rule(["uk", "united kingdom"], "United Kingdom"),
    Rule(["london"], "London"),
    Rule(["us", "united states"], "United States"),
    Rule(["europe"], "Europe")
  ]
  const LocationDefault := "Global"

  const CompanySizeRules: seq<Rule> := [
    Rule(["mid to low tier", "not one of the biggest"], "Mid-tier to smaller firms (not top-tier)"),
    Rule(["small", "boutique"], "Small/boutique firms"),
    Rule(["large", "big"], "Large firms")
  ]
  const CompanySizeDefault := "Various sizes"

  const RestrictionRules: seq<Rule> := [
    Rule(["not @gmail"], "No personal email domains (@gmail.com, @yahoo.com, @hotmail.com)"),
    Rule(["corporate email"], "Must be corporate domain emails"),
    Rule(["not info@", "not admin@"], "No generic company emails (info@, admin@, contact@)")
  ]
  const RestrictionsDefault := "Professional corporate emails only"

  const OutputFormatRules: seq<Rule> := [
    Rule(["spreadsheet", "csv"], "Structured data format suitable for spreadsheet export")
  ]
  const OutputFormatDefault := "Structured format"

  // ---------------------------------------------------------------------------
  // What the table readings mean
  // ---------------------------------------------------------------------------

  lemma {:induction false} MatchedAppend(rules: seq<Rule>, r: Rule, text: string)
    ensures Matched(rules + [r], text) == Matched(rules, text) + (if Fires(r, text) then [r.tag] else [])
    decreases |rules|
  {
    if rules != [] {
      assert (rules + [r])[1..] == rules[1..] + [r];
      MatchedAppend(rules[1..], r, text);
    }
  }

  /** The labels of the first `k` rules that fire, in table order (the list a push loop has built after `k` tests). */
  function MatchedUpTo(rules: seq<Rule>, k: int, text: string): seq<string>
    requires 0 <= k <= |rules|
  {
    if k == 0 then []
    else MatchedUpTo(rules, k - 1, text) + (if Fires(rules[k - 1], text) then [rules[k - 1].tag] else [])
  }

  /** Testing every rule of the table in order reports what the table reports. */
  lemma {:induction false} MatchedUpToPrefix(rules: seq<Rule>, k: int, text: string)
    requires 0 <= k <= |rules|
    ensures MatchedUpTo(rules, k, text) == Matched(rules[..k], text)
    decreases k
  {
    if k > 0 {
      MatchedUpToPrefix(rules, k - 1, text);
      assert rules[..k] == rules[..k - 1] + [rules[k - 1]];
      MatchedAppend(rules[..k - 1], rules[k - 1], text);
    }
  }

  lemma MatchedUpToAll(rules: seq<Rule>, text: string)
    ensures MatchedUpTo(rules, |rules|, text) == Matched(rules, text)
  {
    MatchedUpToPrefix(rules, |rules|, text);
    assert rules[..|rules|] == rules;
  }

  /** A tag is reported exactly when a rule carrying it fires. */
  lemma {:induction false} MatchedMembers(rules: seq<Rule>, text: string, l: string)
    ensures l in Matched(rules, text) <==>
            exists i :: 0 <= i < |rules| && rules[i].tag == l && Fires(rules[i], text)
    decreases |rules|
  {
    if rules != [] {
      MatchedMembers(rules[1..], text, l);
      if exists i :: 0 <= i < |rules| && rules[i].tag == l && Fires(rules[i], text) {
        var i :| 0 <= i < |rules| && rules[i].tag == l && Fires(rules[i], text);
        if i > 0 {
          assert rules[1..][i - 1] == rules[i];
        }
      }
      if l in Matched(rules[1..], text) {
        var i :| 0 <= i < |rules[1..]| && rules[1..][i].tag == l && Fires(rules[1..][i], text);
        assert rules[i + 1] == rules[1..][i];
      }
    }
  }

  /** Two firing rules report their labels in table order. */
  lemma {:induction false} MatchedOrder(rules: seq<Rule>, text: string, i: int, j: int)
    requires 0 <= i < j < |rules|
    requires Fires(rules[i], text) && Fires(rules[j], text)
    ensures exists a, b :: 0 <= a < b < |Matched(rules, text)| &&
              Matched(rules, text)[a] == rules[i].tag && Matched(rules, text)[b] == rules[j].tag
    decreases |rules|
  {
    var m := Matched(rules, text);
    var tail := Matched(rules[1..], text);
    assert rules[1..][j - 1] == rules[j];
    if i == 0 {
      MatchedMembers(rules[1..], text, rules[j].tag);
      var b :| 0 <= b < |tail| && tail[b] == rules[j].tag;
      assert m[0] == rules[0].tag && m[b + 1] == tail[b];
    } else {
      assert rules[1..][i - 1] == rules[i];
      MatchedOrder(rules[1..], text, i - 1, j - 1);
      var a, b :| 0 <= a < b < |tail| && tail[a] == rules[i].tag && tail[b] == rules[j].tag;
      var shift := |m| - |tail|;
      assert m[a + shift] == tail[a] && m[b + shift] == tail[b];
    }
  }

  /** With distinct labels in the table, no tag is reported twice. */
  lemma {:induction false} MatchedDistinct(rules: seq<Rule>, text: string)
    requires DistinctLabels(rules)
    ensures forall a, b :: 0 <= a < b < |Matched(rules, text)| ==> Matched(rules, text)[a] != Matched(rules, text)[b]
    decreases |rules|
  {
    if rules != [] {
      var tail := Matched(rules[1..], text);
      MatchedDistinct(rules[1..], text);
      if Fires(rules[0], text) {
        MatchedMembers(rules[1..], text, rules[0].tag);
        assert rules[0].tag !in tail by {
          forall i | 0 <= i < |rules[1..]| ensures rules[1..][i].tag != rules[0].tag {
            assert rules[1..][i] == rules[i + 1];
          }
        }
      }
    }
  }

  /** The cumulative reading falls back to the default exactly when no rule fires. */
  lemma CumulativeDefaultIff(rules: seq<Rule>, text: string, default: string)
    requires DefaultIsNotALabelList(rules, default)
    ensures Cumulative(rules, text, default) == default <==> Matched(rules, text) == []
    ensures Matched(rules, text) == [] <==> forall i :: 0 <= i < |rules| ==> !Fires(rules[i], text)
  {
    var m := Matched(rules, text);
    if m != [] {
      MatchedMembers(rules, text, m[0]);
      JoinStartsWithFirst(m, ", ");
    }
    if exists i :: 0 <= i < |rules| && Fires(rules[i], text) {
      var i :| 0 <= i < |rules| && Fires(rules[i], text);
      MatchedMembers(rules, text, rules[i].tag);
    }
  }

  /** The first-match reading picks the first firing rule, or the default when none fires. */
  lemma {:induction false} FirstWinsSpec(rules: seq<Rule>, text: string, default: string, i: int)
    requires 0 <= i < |rules| && Fires(rules[i], text)
    requires forall k :: 0 <= k < i ==> !Fires(rules[k], text)
    ensures FirstWins(rules, text, default) == rules[i].tag
    decreases |rules|
  {
    if i > 0 {
      assert rules[1..][i - 1] == rules[i];
      assert forall k :: 0 <= k < i - 1 ==> rules[1..][k] == rules[k + 1];
      FirstWinsSpec(rules[1..], text, default, i - 1);
    }
  }

  lemma {:induction false} FirstWinsDefault(rules: seq<Rule>, text: string, default: string)
    requires forall k :: 0 <= k < |rules| ==> !Fires(rules[k], text)
    ensures FirstWins(rules, text, default) == default
    decreases |rules|
  {
    if rules != [] {
      assert forall k :: 0 <= k < |rules| - 1 ==> rules[1..][k] == rules[k + 1];
      FirstWinsDefault(rules[1..], text, default);
    }
  }

  lemma FiresOne(text: string, p: string, l: string)
    ensures Fires(Rule([p], l), text) <==> Contains(text, p)
  {
    assert !ContainsAny(text, []);
    assert [p][1..] == [];
    assert ContainsAny(text, [p]) <==> Contains(text, p);
  }

  lemma FiresTwo(text: string, p: string, q: string, l: string)
    ensures Fires(Rule([p, q], l), text) <==> Contains(text, p) || Contains(text, q)
  {
    FiresOne(text, q, l);
    assert [p, q][1..] == [q];
    assert ContainsAny(text, [p, q]) <==> Contains(text, p) || ContainsAny(text, [q]);
  }

  /** `if (hit) list.push(tag)`: the list after one conditional push. */
  function PushIf(list: seq<string>, hit: bool, tag: string): seq<string> {
    if hit then list + [tag] else list
  }

  // ---------------------------------------------------------------------------
  // Cumulative extractors: a list built by successive pushes, then joined
  // ---------------------------------------------------------------------------

  /** The job functions the request asks for: the cumulative reading of `JobFunctionRules`. */
  function JobFunctions(prompt: string): string {
    Cumulative(JobFunctionRules, ToLower(prompt), JobFunctionsDefault)
  }

  // Each test of `extractJobFunctions` is the next rule of `JobFunctionRules`.
  lemma JobFunctionsStep0(t: string)
    ensures MatchedUpTo(JobFunctionRules, 1, t) ==
            PushIf(MatchedUpTo(JobFunctionRules, 0, t),
                   Contains(t, "deal sourcer") || Contains(t, "deal sourcing"),
                   "Deal Sourcers")
  {
    FiresTwo(t, "deal sourcer", "deal sourcing", "Deal Sourcers");
  }

  lemma JobFunctionsStep1(t: string)
    ensures MatchedUpTo(JobFunctionRules, 2, t) ==
            PushIf(MatchedUpTo(JobFunctionRules, 1, t),
                   Contains(t, "deal originator"),
                   "Deal Originators")
  {
    FiresOne(t, "deal originator", "Deal Originators");
  }

  lemma JobFunctionsStep2(t: string)
    ensures MatchedUpTo(JobFunctionRules, 3, t) ==
            PushIf(MatchedUpTo(JobFunctionRules, 2, t),
                   Contains(t, "investment"),
                   "Investment Professionals")
  {
    FiresOne(t, "investment", "Investment Professionals");
  }

  lemma JobFunctionsStep3(t: string)
    ensures MatchedUpTo(JobFunctionRules, 4, t) ==
            PushIf(MatchedUpTo(JobFunctionRules, 3, t),
                   Contains(t, "analyst"),
                   "Investment Analysts")
  {
    FiresOne(t, "analyst", "Investment Analysts");
  }

  lemma JobFunctionsStep4(t: string)
    ensures MatchedUpTo(JobFunctionRules, 5, t) ==
            PushIf(MatchedUpTo(JobFunctionRules, 4, t),
                   Contains(t, "associate"),
                   "Investment Associates")
  {
    FiresOne(t, "associate", "Investment Associates");
  }

  lemma JobFunctionsStep5(t: string)
    ensures MatchedUpTo(JobFunctionRules, 6, t) ==
            PushIf(MatchedUpTo(JobFunctionRules, 5, t),
                   Contains(t, "principal"),
                   "Principals")
  {
    FiresOne(t, "principal", "Principals");
  }

  lemma JobFunctionsStep6(t: string)
    ensures MatchedUpTo(JobFunctionRules, 7, t) ==
            PushIf(MatchedUpTo(JobFunctionRules, 6, t),
                   Contains(t, "partner"),
                   "Partners")
  {
    FiresOne(t, "partner", "Partners");
  }

  /** `extractJobFunctions`: seven tests, each pushing its label, then the joined list or the default. */
  method ExtractJobFunctions(prompt: string) returns (r: string)
    ensures r == JobFunctions(prompt)
  {
    var lower := ToLower(prompt);
    var functions: seq<string> := [];
    functions := PushIf(functions, Contains(lower, "deal sourcer") || Contains(lower, "deal sourcing"), "Deal Sourcers");
    JobFunctionsStep0(lower);
    functions := PushIf(functions, Contains(lower, "deal originator"), "Deal Originators");
    JobFunctionsStep1(lower);
    functions := PushIf(functions, Contains(lower, "investment"), "Investment Professionals");
    JobFunctionsStep2(lower);
    functions := PushIf(functions, Contains(lower, "analyst"), "Investment Analysts");
    JobFunctionsStep3(lower);
    functions := PushIf(functions, Contains(lower, "associate"), "Investment Associates");
    JobFunctionsStep4(lower);
    functions := PushIf(functions, Contains(lower, "principal"), "Principals");
    JobFunctionsStep5(lower);
    functions := PushIf(functions, Contains(lower, "partner"), "Partners");
    JobFunctionsStep6(lower);
    MatchedUpToAll(JobFunctionRules, lower);
    r := if |functions| > 0 then Join(functions, ", ") else JobFunctionsDefault;
  }

  /** The locations the request names: the cumulative reading of `LocationRules`. */
  function Location(prompt: string): string {
    Cumulative(LocationRules, ToLower(prompt), LocationDefault)
  }

  lemma LocationStep0(t: string)
    ensures MatchedUpTo(LocationRules, 1, t) ==
            PushIf(MatchedUpTo(LocationRules, 0, t),
                   Contains(t, "uk") || Contains(t, "united kingdom"),
                   "United Kingdom")
  {
    FiresTwo(t, "uk", "united kingdom", "United Kingdom");
  }

  lemma LocationStep1(t: string)
    ensures MatchedUpTo(LocationRules, 2, t) ==
            PushIf(MatchedUpTo(LocationRules, 1, t),
                   Contains(t, "london"),
                   "London")
  {
    FiresOne(t, "london", "London");
  }

  lemma LocationStep2(t: string)
    ensures MatchedUpTo(LocationRules, 3, t) ==
            PushIf(MatchedUpTo(LocationRules, 2, t),
                   Contains(t, "us") || Contains(t, "united states"),
                   "United States")
  {
    FiresTwo(t, "us", "united states", "United States");
  }

  lemma LocationStep3(t: string)
    ensures MatchedUpTo(LocationRules, 4, t) ==
            PushIf(MatchedUpTo(LocationRules, 3, t),
                   Contains(t, "europe"),
                   "Europe")
  {
    FiresOne(t, "europe", "Europe");
  }

  /** `extractLocation`: four tests, each pushing its label, then the joined list or "Global". */
  method ExtractLocation(prompt: string) returns (r: string)
    ensures r == Location(prompt)
  {
    var lower := ToLower(prompt);
    var locations: seq<string> := [];
    locations := PushIf(locations, Contains(lower, "uk") || Contains(lower, "united kingdom"), "United Kingdom");
    LocationStep0(lower);
    locations := PushIf(locations, Contains(lower, "london"), "London");
    LocationStep1(lower);
    locations := PushIf(locations, Contains(lower, "us") || Contains(lower, "united states"), "United States");
    LocationStep2(lower);
    locations := PushIf(locations, Contains(lower, "europe"), "Europe");
    LocationStep3(lower);
    MatchedUpToAll(LocationRules, lower);
    r := if |locations| > 0 then Join(locations, ", ") else LocationDefault;
  }

  /** The extra e-mail clauses the request asks for: the cumulative reading of `RestrictionRules`. */
  function EmailRestrictions(prompt: string): string {
    Cumulative(RestrictionRules, ToLower(prompt), RestrictionsDefault)
  }

  lemma RestrictionsStep0(t: string)
    ensures MatchedUpTo(RestrictionRules, 1, t) ==
            PushIf(MatchedUpTo(RestrictionRules, 0, t),
                   Contains(t, "not @gmail"),
                   "No personal email domains (@gmail.com, @yahoo.com, @hotmail.com)")
  {
    FiresOne(t, "not @gmail", "No personal email domains (@gmail.com, @yahoo.com, @hotmail.com)");
  }

  lemma RestrictionsStep1(t: string)
    ensures MatchedUpTo(RestrictionRules, 2, t) ==
            PushIf(MatchedUpTo(RestrictionRules, 1, t),
                   Contains(t, "corporate email"),
                   "Must be corporate domain emails")
  {
    FiresOne(t, "corporate email", "Must be corporate domain emails");
  }

  lemma RestrictionsStep2(t: string)
    ensures MatchedUpTo(RestrictionRules, 3, t) ==
            PushIf(MatchedUpTo(RestrictionRules, 2, t),
                   Contains(t, "not info@") || Contains(t, "not admin@"),
                   "No generic company emails (info@, admin@, contact@)")
  {
    FiresTwo(t, "not info@", "not admin@", "No generic company emails (info@, admin@, contact@)");
  }

  /**
   * `extractEmailRestrictions`: three tests, each pushing its clause; the
   * joined text, or the default when that text is empty (`join(', ') || default`).
   */
  method ExtractEmailRestrictions(prompt: string) returns (r: string)
    ensures r == EmailRestrictions(prompt)
  {
    var lower := ToLower(prompt);
    var restrictions: seq<string> := [];
    restrictions := PushIf(restrictions, Contains(lower, "not @gmail"), "No personal email domains (@gmail.com, @yahoo.com, @hotmail.com)");
    RestrictionsStep0(lower);
    restrictions := PushIf(restrictions, Contains(lower, "corporate email"), "Must be corporate domain emails");
    RestrictionsStep1(lower);
    restrictions := PushIf(restrictions, Contains(lower, "not info@") || Contains(lower, "not admin@"), "No generic company emails (info@, admin@, contact@)");
    RestrictionsStep2(lower);
    MatchedUpToAll(RestrictionRules, lower);
    if restrictions != [] {
      JoinNonEmpty(restrictions, ", ", 0);
    }
    r := Join(restrictions, ", ");
    if r == "" {
      r := RestrictionsDefault;
    }
  }

  // ---------------------------------------------------------------------------
  // What the cumulative extractors promise
  // ---------------------------------------------------------------------------

  /**
   * What a cumulative answer means for a table: it is the default exactly
   * when no rule fires; otherwise it is the ", " join of the reported labels,
   * which are exactly the labels of firing rules, each once, in table order.
   */
  ghost predicate ListsFiringLabels(rules: seq<Rule>, text: string, default: string, answer: string) {
    var m := Matched(rules, text);
    && (answer == default <==> forall i :: 0 <= i < |rules| ==> !Fires(rules[i], text))
    && (m != [] ==> answer == Join(m, ", "))
    && (forall l :: l in m <==> exists i :: 0 <= i < |rules| && rules[i].tag == l && Fires(rules[i], text))
    && (forall a, b :: 0 <= a < b < |m| ==> m[a] != m[b])
    && (forall i, j :: 0 <= i < j < |rules| && Fires(rules[i], text) && Fires(rules[j], text) ==>
          exists a, b :: 0 <= a < b < |m| && m[a] == rules[i].tag && m[b] == rules[j].tag)
  }

  /** For a table with distinct labels none of which begins the default, the cumulative reading means what it should. */
  lemma CumulativeSpec(rules: seq<Rule>, text: string, default: string)
    requires DistinctLabels(rules) && DefaultIsNotALabelList(rules, default)
    ensures ListsFiringLabels(rules, text, default, Cumulative(rules, text, default))
  {
    CumulativeDefaultIff(rules, text, default);
    MatchedDistinct(rules, text);
    forall l ensures l in Matched(rules, text) <==> exists i :: 0 <= i < |rules| && rules[i].tag == l && Fires(rules[i], text) {
      MatchedMembers(rules, text, l);
    }
    forall i, j | 0 <= i < j < |rules| && Fires(rules[i], text) && Fires(rules[j], text)
      ensures exists a, b :: 0 <= a < b < |Matched(rules, text)| &&
                Matched(rules, text)[a] == rules[i].tag && Matched(rules, text)[b] == rules[j].tag
    {
      MatchedOrder(rules, text, i, j);
    }
  }

  lemma JobFunctionRulesWellFormed()
    ensures DistinctLabels(JobFunctionRules)
    ensures DefaultIsNotALabelList(JobFunctionRules, JobFunctionsDefault)
  {
    var d := JobFunctionsDefault;
    assert d[5] == 't' && d[11] == 'p';
    forall i | 0 <= i < |JobFunctionRules| ensures !StartsWith(d, JobFunctionRules[i].tag) {
      var tag := JobFunctionRules[i].tag;
      if 2 <= i <= 4 {
        assert tag[11] != 'p' && d[..|tag|][11] == d[11];
      } else {
        assert tag[5] != 't' && d[..|tag|][5] == d[5];
      }
    }
  }

  lemma LocationRulesWellFormed()
    ensures DistinctLabels(LocationRules)
    ensures DefaultIsNotALabelList(LocationRules, LocationDefault)
  {
    var d := LocationDefault;
    forall i | 0 <= i < |LocationRules| ensures !StartsWith(d, LocationRules[i].tag) {
      var tag := LocationRules[i].tag;
      if |tag| <= |d| {
        assert tag[0] != 'G' && d[..|tag|][0] == d[0];
      }
    }
  }

  lemma RestrictionRulesWellFormed()
    ensures DistinctLabels(RestrictionRules)
    ensures DefaultIsNotALabelList(RestrictionRules, RestrictionsDefault)
  {
    var d := RestrictionsDefault;
    assert d[0] == 'P';
    var tag := RestrictionRules[1].tag;
    assert tag[0] == 'M' && d[..|tag|][0] == d[0];
  }

  /** `extractJobFunctions` falls back to its default exactly when none of its eight keywords occurs. */
  lemma JobFunctionsDefaultIff(prompt: string)
    ensures var t := ToLower(prompt);
      JobFunctions(prompt) == JobFunctionsDefault <==>
        !Contains(t, "deal sourcer") && !Contains(t, "deal sourcing") && !Contains(t, "deal originator") &&
        !Contains(t, "investment") && !Contains(t, "analyst") && !Contains(t, "associate") &&
        !Contains(t, "principal") && !Contains(t, "partner")
  {
    var t := ToLower(prompt);
    JobFunctionRulesWellFormed();
    CumulativeDefaultIff(JobFunctionRules, t, JobFunctionsDefault);
    JobFunctionsStep0(t);
    JobFunctionsStep1(t);
    JobFunctionsStep2(t);
    JobFunctionsStep3(t);
    JobFunctionsStep4(t);
    JobFunctionsStep5(t);
    JobFunctionsStep6(t);
    MatchedUpToAll(JobFunctionRules, t);
  }

  /** `extractLocation` answers "Global" exactly when none of its six keywords occurs. */
  lemma LocationGlobalIff(prompt: string)
    ensures var t := ToLower(prompt);
      Location(prompt) == LocationDefault <==>
        !Contains(t, "uk") && !Contains(t, "united kingdom") && !Contains(t, "london") &&
        !Contains(t, "us") && !Contains(t, "united states") && !Contains(t, "europe")
  {
    var t := ToLower(prompt);
    LocationRulesWellFormed();
    CumulativeDefaultIff(LocationRules, t, LocationDefault);
    LocationStep0(t);
    LocationStep1(t);
    LocationStep2(t);
    LocationStep3(t);
    MatchedUpToAll(LocationRules, t);
  }

  /** Bare substring matching: any request mentioning "business" names the United States. */
  lemma BusinessMeansUnitedStates(prompt: string)
    requires Contains(ToLower(prompt), "business")
    ensures "United States" in Matched(LocationRules, ToLower(prompt))
    ensures Location(prompt) != LocationDefault
  {
    var t := ToLower(prompt);
    var word := "business";
    assert word[1..3][0] == 'u' && word[1..3][1] == 's';
    assert word[1..3] == "us";
    ContainsAt(word, "us", 1);
    ContainsTransitive(t, word, "us");
    LocationStep0(t);
    LocationStep1(t);
    LocationStep2(t);
    LocationStep3(t);
    MatchedUpToAll(LocationRules, t);
    LocationGlobalIff(prompt);
  }

  /** `extractEmailRestrictions` falls back to its default exactly when none of its four keywords occurs. */
  lemma EmailRestrictionsDefaultIff(prompt: string)
    ensures var t := ToLower(prompt);
      EmailRestrictions(prompt) == RestrictionsDefault <==>
        !Contains(t, "not @gmail") && !Contains(t, "corporate email") &&
        !Contains(t, "not info@") && !Contains(t, "not admin@")
  {
    var t := ToLower(prompt);
    RestrictionRulesWellFormed();
    CumulativeDefaultIff(RestrictionRules, t, RestrictionsDefault);
    RestrictionsStep0(t);
    RestrictionsStep1(t);
    RestrictionsStep2(t);
    MatchedUpToAll(RestrictionRules, t);
  }

  /**
   * `extractJobFunctions` lists, in the order Deal Sourcers, Deal Originators,
   * Investment Professionals, Investment Analysts, Investment Associates,
   * Principals, Partners, each label whose keywords occur, once, and answers
   * the default exactly when none does.
   */
  lemma JobFunctionsSpec(prompt: string)
    ensures ListsFiringLabels(JobFunctionRules, ToLower(prompt), JobFunctionsDefault, JobFunctions(prompt))
  {
    JobFunctionRulesWellFormed();
    CumulativeSpec(JobFunctionRules, ToLower(prompt), JobFunctionsDefault);
  }

  /** `extractLocation` lists United Kingdom, London, United States, Europe in that order, each once, as their keywords occur, or "Global". */
  lemma LocationSpec(prompt: string)
    ensures ListsFiringLabels(LocationRules, ToLower(prompt), LocationDefault, Location(prompt))
  {
    LocationRulesWellFormed();
    CumulativeSpec(LocationRules, ToLower(prompt), LocationDefault);
  }

  /** `extractEmailRestrictions` lists its three clauses in table order, each once, as their keywords occur, or the default. */
  lemma EmailRestrictionsSpec(prompt: string)
    ensures ListsFiringLabels(RestrictionRules, ToLower(prompt), RestrictionsDefault, EmailRestrictions(prompt))
  {
    RestrictionRulesWellFormed();
    CumulativeSpec(RestrictionRules, ToLower(prompt), RestrictionsDefault);
  }

  // ---------------------------------------------------------------------------
  // First-match extractors: a chain of tests, each returning its label
  // ---------------------------------------------------------------------------

  /** `extractIndustry`: always one of four labels. */
  function ExtractIndustry(prompt: string): (r: string)
    ensures r in {"Venture Capital", "Private Equity", "Investment Banking", IndustryDefault}
  {
    var lower := ToLower(prompt);
    if Contains(lower, "venture capital") || Contains(lower, "vc") then "Venture Capital"
    else if Contains(lower, "private equity") || Contains(lower, "pe") then "Private Equity"
    else if Contains(lower, "investment bank") then "Investment Banking"
    else IndustryDefault
  }

  /** The industry the request names: the first-match reading of `IndustryRules`. */
  function Industry(prompt: string): string {
    FirstWins(IndustryRules, ToLower(prompt), IndustryDefault)
  }

  /** The chain of tests is the first-match reading of `IndustryRules`. */
  lemma IndustryIsFirstMatch(prompt: string)
    ensures ExtractIndustry(prompt) == Industry(prompt)
  {
    var t := ToLower(prompt);
    var rules, d := IndustryRules, IndustryDefault;
    FiresTwo(t, "venture capital", "vc", "Venture Capital");
    FiresTwo(t, "private equity", "pe", "Private Equity");
    FiresOne(t, "investment bank", "Investment Banking");
    assert rules[1..][1..][1..] == [];
    assert FirstWins(rules[1..][1..], t, d) == if Contains(t, "investment bank") then "Investment Banking" else d;
    assert FirstWins(rules[1..], t, d) ==
      if Contains(t, "private equity") || Contains(t, "pe") then "Private Equity" else FirstWins(rules[1..][1..], t, d);
  }

  /** A venture-capital keyword decides the industry whatever else the request says. */
  lemma VentureCapitalWins(prompt: string)
    requires Contains(ToLower(prompt), "venture capital") || Contains(ToLower(prompt), "vc")
    ensures ExtractIndustry(prompt) == "Venture Capital"
    ensures FirstWins(IndustryRules, ToLower(prompt), IndustryDefault) == "Venture Capital"
  {
    IndustryIsFirstMatch(prompt);
  }

  /** Bare substring matching: "people" contains "pe", so it reads as private equity unless a VC keyword comes first. */
  lemma PeopleMeansPrivateEquity(prompt: string)
    requires Contains(ToLower(prompt), "people")
    requires !Contains(ToLower(prompt), "venture capital") && !Contains(ToLower(prompt), "vc")
    ensures ExtractIndustry(prompt) == "Private Equity"
  {
    var word := "people";
    assert word[0..2][0] == 'p' && word[0..2][1] == 'e';
    assert word[0..2] == "pe";
    ContainsAt(word, "pe", 0);
    ContainsTransitive(ToLower(prompt), word, "pe");
  }

  /** `extractCompanySize`: always one of four labels. */
  function ExtractCompanySize(prompt: string): (r: string)
    ensures r in {"Mid-tier to smaller firms (not top-tier)", "Small/boutique firms", "Large firms", CompanySizeDefault}
  {
    var lower := ToLower(prompt);
    if Contains(lower, "mid to low tier") || Contains(lower, "not one of the biggest") then "Mid-tier to smaller firms (not top-tier)"
    else if Contains(lower, "small") || Contains(lower, "boutique") then "Small/boutique firms"
    else if Contains(lower, "large") || Contains(lower, "big") then "Large firms"
    else CompanySizeDefault
  }

  /** The firm size the request asks for: the first-match reading of `CompanySizeRules`. */
  function CompanySize(prompt: string): string {
    FirstWins(CompanySizeRules, ToLower(prompt), CompanySizeDefault)
  }

  /** The chain of tests is the first-match reading of `CompanySizeRules`. */
  lemma CompanySizeIsFirstMatch(prompt: string)
    ensures ExtractCompanySize(prompt) == CompanySize(prompt)
  {
    var t := ToLower(prompt);
    var rules, d := CompanySizeRules, CompanySizeDefault;
    FiresTwo(t, "mid to low tier", "not one of the biggest", "Mid-tier to smaller firms (not top-tier)");
    FiresTwo(t, "small", "boutique", "Small/boutique firms");
    FiresTwo(t, "large", "big", "Large firms");
    assert rules[1..][1..][1..] == [];
    assert FirstWins(rules[1..][1..], t, d) == if Contains(t, "large") || Contains(t, "big") then "Large firms" else d;
    assert FirstWins(rules[1..], t, d) ==
      if Contains(t, "small") || Contains(t, "boutique") then "Small/boutique firms" else FirstWins(rules[1..][1..], t, d);
  }

  /** `extractOutputFormat`: one of two labels, decided by "spreadsheet" or "csv". */
  function ExtractOutputFormat(prompt: string): (r: string)
    ensures r in {"Structured data format suitable for spreadsheet export", "Structured format"}
    ensures r == "Structured format" <==> !Contains(ToLower(prompt), "spreadsheet") && !Contains(ToLower(prompt), "csv")
  {
    var lower := ToLower(prompt);
    if Contains(lower, "spreadsheet") || Contains(lower, "csv") then "Structured data format suitable for spreadsheet export"
    else "Structured format"
  }

  /** The output format: one rule, read first-match. */
  function OutputFormat(prompt: string): string {
    FirstWins(OutputFormatRules, ToLower(prompt), OutputFormatDefault)
  }

  /** The single test is the first-match reading of `OutputFormatRules`. */
  lemma OutputFormatIsFirstMatch(prompt: string)
    ensures ExtractOutputFormat(prompt) == OutputFormat(prompt)
  {
    var t := ToLower(prompt);
    FiresTwo(t, "spreadsheet", "csv", "Structured data format suitable for spreadsheet export");
    assert OutputFormatRules[1..] == [];
    assert FirstWins(OutputFormatRules[1..], t, OutputFormatDefault) == OutputFormatDefault;
  }

  // ---------------------------------------------------------------------------
  // The count: the first group of `/(\d+)\s*email/i`, or "25"
  // ---------------------------------------------------------------------------

  predicate IsDigit(c: char) {
    '0' <= c <= '9'
  }

  predicate AllDigits(s: string) {
    forall i :: 0 <= i < |s| ==> IsDigit(s[i])
  }

  /** Where the longest run of characters satisfying `p` that starts at `i` ends. */
  function RunEnd(s: string, i: int, p: char -> bool): (j: int)
    requires 0 <= i <= |s|
    ensures i <= j <= |s|
    ensures forall k :: i <= k < j ==> p(s[k])
    ensures j == |s| || !p(s[j])
    decreases |s| - i
  {
    if i < |s| && p(s[i]) then RunEnd(s, i + 1, p) else i
  }

  /** A run is determined by where it stops: the first index from `i` on whose character fails `p`. */
  lemma {:induction false} RunEndAt(s: string, i: int, p: char -> bool, j: int)
    requires 0 <= i <= j <= |s|
    requires forall t :: i <= t < j ==> p(s[t])
    requires j == |s| || !p(s[j])
    ensures RunEnd(s, i, p) == j
    decreases j - i
  {
    if i < j {
      RunEndAt(s, i + 1, p, j);
    }
  }

  /** `email` under the `i` flag: five characters equal to "email" after case folding. */
  predicate EmailAt(s: string, k: int) {
    0 <= k && k + 5 <= |s| && ToLower(s[k..k + 5]) == "email"
  }

  /**
   * The regular expression, read declaratively: a match starting at `i`
   * whose group `\d+` is `s[i..j]`, followed by the whitespace `s[j..k]`
   * and "email" at `k`.
   */
  predicate CountMatch(s: string, i: int, j: int, k: int) {
    0 <= i < j <= k <= |s| && AllDigits(s[i..j]) && IsBlank(s[j..k]) && EmailAt(s, k)
  }

  /** The matcher's test at one start: the maximal digit run, the maximal whitespace run, then "email". */
  predicate MatchAt(s: string, i: int)
    requires 0 <= i <= |s|
  {
    var j := RunEnd(s, i, IsDigit);
    i < j && EmailAt(s, RunEnd(s, j, IsJsWhitespace))
  }

  /** Neither a digit nor whitespace folds to the `e` that starts "email". */
  lemma EmailStartsWithLetter(s: string, k: int)
    requires EmailAt(s, k)
    ensures !IsDigit(s[k]) && !IsJsWhitespace(s[k])
  {
    assert ToLower(s[k..k + 5])[0] == LowerChar(s[k]);
  }

  /**
   * Backtracking cannot change the outcome: digits, whitespace and the
   * letter e are disjoint, so a match at `i` has the maximal runs.
   */
  lemma CountMatchIsMaximal(s: string, i: int, j: int, k: int)
    requires CountMatch(s, i, j, k)
    ensures j == RunEnd(s, i, IsDigit) && k == RunEnd(s, j, IsJsWhitespace)
  {
    EmailStartsWithLetter(s, k);
    forall t | i <= t < j ensures IsDigit(s[t]) {
      assert s[i..j][t - i] == s[t];
    }
    forall t | j <= t < k ensures IsJsWhitespace(s[t]) {
      assert s[j..k][t - j] == s[t];
    }
    RunEndAt(s, i, IsDigit, j);
    RunEndAt(s, j, IsJsWhitespace, k);
  }

  lemma MatchAtIff(s: string, i: int)
    requires 0 <= i <= |s|
    ensures MatchAt(s, i) <==> exists j, k :: CountMatch(s, i, j, k)
  {
    if exists j, k :: CountMatch(s, i, j, k) {
      var j, k :| CountMatch(s, i, j, k);
      CountMatchIsMaximal(s, i, j, k);
    }
    if MatchAt(s, i) {
      var j := RunEnd(s, i, IsDigit);
      var k := RunEnd(s, j, IsJsWhitespace);
      assert CountMatch(s, i, j, k);
    }
  }

  /** The matcher: try each start from `i` on and report the group of the first match. */
  function CountCaptureFrom(s: string, i: int): (r: Option<string>)
    requires 0 <= i <= |s|
    ensures r.Some? ==> r.value != [] && AllDigits(r.value)
    decreases |s| - i
  {
    if i == |s| then None
    else if MatchAt(s, i) then Some(s[i..RunEnd(s, i, IsDigit)])
    else CountCaptureFrom(s, i + 1)
  }

  /** The matcher finds nothing from `i` on exactly when no start from `i` on matches. */
  lemma {:induction false} CountCaptureFromNone(s: string, i: int)
    requires 0 <= i <= |s|
    ensures CountCaptureFrom(s, i).None? <==> forall m :: i <= m < |s| ==> !MatchAt(s, m)
    decreases |s| - i
  {
    if i < |s| {
      CountCaptureFromNone(s, i + 1);
      if MatchAt(s, i) {
        assert CountCaptureFrom(s, i).Some?;
      } else {
        assert CountCaptureFrom(s, i) == CountCaptureFrom(s, i + 1);
      }
    }
  }

  /** The matcher reports the group of the first start from `i` on that matches. */
  lemma {:induction false} CountCaptureFromFirst(s: string, i: int, m: int)
    requires 0 <= i <= m < |s| && MatchAt(s, m)
    requires forall n :: i <= n < m ==> !MatchAt(s, n)
    ensures CountCaptureFrom(s, i) == Some(s[m..RunEnd(s, m, IsDigit)])
    decreases m - i
  {
    if i < m {
      CountCaptureFromFirst(s, i + 1, m);
    }
  }

  /** `extractCount`: the group of the leftmost match, or "25"; so "25" or a non-empty run of digits. */
  function ExtractCount(prompt: string): (r: string)
    ensures r == "25" || (r != [] && AllDigits(r))
  {
    match CountCaptureFrom(prompt, 0)
    case None => "25"
    case Some(digits) => digits
  }

  /** `extractCount` returns the group of the leftmost match of the regular expression, and "25" when there is none. */
  lemma ExtractCountIsLeftmostMatch(prompt: string)
    ensures (forall i, j, k :: !CountMatch(prompt, i, j, k)) ==> ExtractCount(prompt) == "25"
    ensures forall i, j, k ::
              (CountMatch(prompt, i, j, k) && forall i', j', k' :: CountMatch(prompt, i', j', k') ==> i <= i') ==>
              ExtractCount(prompt) == prompt[i..j]
  {
    forall m | 0 <= m <= |prompt| {
      MatchAtIff(prompt, m);
    }
    CountCaptureFromNone(prompt, 0);
    forall i, j, k | CountMatch(prompt, i, j, k) && forall i', j', k' :: CountMatch(prompt, i', j', k') ==> i <= i'
      ensures ExtractCount(prompt) == prompt[i..j]
    {
      CountMatchIsMaximal(prompt, i, j, k);
      CountCaptureFromFirst(prompt, 0, i);
    }
  }

  // ---------------------------------------------------------------------------
  // The instruction template
  // ---------------------------------------------------------------------------

  /** The seven extracted values, in the order `optimizePrompt` computes them. */
  datatype ExtractedInfo = ExtractedInfo(
    count: string,
    jobFunctions: string,
    industry: string,
    location: string,
    companySize: string,
    emailRestrictions: string,
    outputFormat: string)

  function ExtractInfo(prompt: string): ExtractedInfo {
    ExtractedInfo(
      ExtractCount(prompt),
      JobFunctions(prompt),
      Industry(prompt),
      Location(prompt),
      CompanySize(prompt),
      EmailRestrictions(prompt),
      OutputFormat(prompt))
  }

  function Quoted(s: string): string {
    "\"" + s + "\""
  }

  /** One line of the JSON object shown to the model; `ending` is what follows the value. */
  function FieldLine(name: string, description: string, ending: string): string {
    "  " + Quoted(name) + ": " + Quoted(description) + ending
  }

  /** The record fields the model is told to return, in the order the template lists them. */
  const FieldNames: seq<string> := ["firstName", "lastName", "jobTitle", "emailAddress", "companyName", "context"]

  const TaskLead := "TASK: Generate a list of "
  const ContactsPhrase := " professional email contacts"
  const CriteriaPhrase := " based on the following criteria."

  function TaskLine(count: string): string {
    TaskLead + count + ContactsPhrase + CriteriaPhrase
  }

  /** A "- " bullet line of the template. */
  function Item(text: string): string {
    "- " + text
  }

  /** A bullet line naming one extracted value. */
  function Bullet(name: string, value: string): string {
    Item(name + ": " + value)
  }

  // The template's fixed lines and labels.
  const JobFunctionsLabel := "Job Functions"
  const IndustryLabel := "Industry"
  const LocationLabel := "Location"
  const CompanySizeLabel := "Company Size"
  const StringType := "string"
  const TargetHeader := "TARGET PROFESSIONALS:"
  const RequirementsHeader := "EMAIL REQUIREMENTS:"
  const CorporateOnly := "Only corporate email addresses (no personal emails like @gmail.com, @yahoo.com)"
  const NoGenericAddresses := "No generic emails (info@, admin@, contact@, support@)"
  const IndividualOnly := "Must be individual professional email addresses"
  const FormatHeader := "OUTPUT FORMAT:"
  const FormatLead := "Return ONLY a JSON array with objects containing these exact fields:"
  const ContextDescription := "string explaining why this person matches the criteria"
  const ImportantHeader := "IMPORTANT:"
  const RealisticAddresses := "Generate realistic, professional email addresses following corporate naming conventions"
  const AccurateTitles := "Ensure job titles accurately reflect the requested functions"
  const MeaningfulContext := "Provide meaningful context for each selection"
  const QualityFirst := "Focus on quality over quantity"
  const AuthenticLooking := "Make emails appear authentic and professional"
  const Closing := "Generate the JSON array now:"

  /**
   * The template's lines after its opening newline, values filled in. The
   * "lastName" line keeps the template's trailing space after its comma.
   */
  function TemplateLines(info: ExtractedInfo): seq<string> {
    [
      TaskLine(info.count),
      "",
      TargetHeader,
      Bullet(JobFunctionsLabel, info.jobFunctions),
      Bullet(IndustryLabel, info.industry),
      Bullet(LocationLabel, info.location),
      Bullet(CompanySizeLabel, info.companySize),
      "",
      RequirementsHeader,
      Item(CorporateOnly),
      Item(NoGenericAddresses),
      Item(IndividualOnly),
      Item(info.emailRestrictions),
      "",
      FormatHeader,
      FormatLead,
      "{",
      FieldLine(FieldNames[0], StringType, ","),
      FieldLine(FieldNames[1], StringType, ", "),
      FieldLine(FieldNames[2], StringType, ","),
      FieldLine(FieldNames[3], StringType, ","),
      FieldLine(FieldNames[4], StringType, ","),
      FieldLine(FieldNames[5], ContextDescription, ""),
      "}",
      "",
      ImportantHeader,
      Item(RealisticAddresses),
      Item(AccurateTitles),
      Item(MeaningfulContext),
      Item(QualityFirst),
      Item(AuthenticLooking),
      "",
      Closing
    ]
  }

  /** The template body between its leading newline and its end. */
  function Instruction(info: ExtractedInfo): string {
    Join(TemplateLines(info), "\n")
  }

  /** `optimizePrompt`: the template, which opens with a newline, filled in and trimmed. */
  function OptimizePrompt(userPrompt: string): string {
    Trim("\n" + Instruction(ExtractInfo(userPrompt)))
  }

  // ---------------------------------------------------------------------------
  // What the template promises
  // ---------------------------------------------------------------------------

  /** The instruction opens with its first line, `TaskLine`. */
  lemma InstructionStartsWithTaskLine(info: ExtractedInfo)
    ensures StartsWith(Instruction(info), TaskLine(info.count))
  {
    JoinStartsWithFirst(TemplateLines(info), "\n");
  }

  /** `.trim()` removes exactly the template's leading newline: the filled-in body is returned whole. */
  lemma InstructionSurvivesTrim(info: ExtractedInfo)
    ensures Trim("\n" + Instruction(info)) == Instruction(info)
  {
    var lines, body := TemplateLines(info), Instruction(info);
    InstructionStartsWithTaskLine(info);
    assert body[..|TaskLine(info.count)|][0] == body[0];
    assert Closing[|Closing| - 1] == ':';
    JoinEndsWithLast(lines, "\n");
    assert IsBlank("\n");
    TrimLeadingBlank("\n", body);
  }

  /** Every line of the filled-in template occurs in the instruction. */
  lemma InstructionShowsLine(info: ExtractedInfo, k: int)
    requires 0 <= k < |TemplateLines(info)|
    ensures Contains(Instruction(info), TemplateLines(info)[k])
  {
    JoinContainsPart(TemplateLines(info), "\n", k);
  }

  /** A field line shows its field name in quotes. */
  lemma FieldLineNamesField(name: string, description: string, ending: string)
    ensures Contains(FieldLine(name, description, ending), Quoted(name))
  {
    var q := Quoted(name);
    ContainsSelf(q);
    ContainsRight("  ", q, q);
    ContainsLeft("  " + q, ": ", q);
    ContainsLeft("  " + q + ": ", Quoted(description), q);
    ContainsLeft("  " + q + ": " + Quoted(description), ending, q);
  }

  /** For every request the instruction starts with "TASK:" and the extracted count. */
  lemma OptimizePromptStartsWithTask(prompt: string)
    ensures StartsWith(OptimizePrompt(prompt), "TASK: Generate a list of " + ExtractCount(prompt) + " professional email contacts")
  {
    var info := ExtractInfo(prompt);
    var head := TaskLead + info.count + ContactsPhrase;
    InstructionSurvivesTrim(info);
    InstructionStartsWithTaskLine(info);
    StartsWithLeft(head, CriteriaPhrase);
    StartsWithTransitive(Instruction(info), TaskLine(info.count), head);
  }

  /** The OUTPUT FORMAT block names the six record fields, in quotes. */
  lemma InstructionNamesFields(info: ExtractedInfo)
    ensures forall k :: 0 <= k < |FieldNames| ==> Contains(Instruction(info), Quoted(FieldNames[k]))
  {
    var lines := TemplateLines(info);
    forall k | 0 <= k < |FieldNames| ensures Contains(Instruction(info), Quoted(FieldNames[k])) {
      if k < 5 {
        FieldLineNamesField(FieldNames[k], StringType, if k == 1 then ", " else ",");
      } else {
        FieldLineNamesField(FieldNames[k], ContextDescription, "");
      }
      InstructionShowsLine(info, 17 + k);
      ContainsTransitive(Instruction(info), lines[17 + k], Quoted(FieldNames[k]));
    }
  }

  /** For every request the instruction names the six record fields, in quotes. */
  lemma OptimizePromptNamesFields(prompt: string)
    ensures forall k :: 0 <= k < |FieldNames| ==> Contains(OptimizePrompt(prompt), Quoted(FieldNames[k]))
  {
    InstructionSurvivesTrim(ExtractInfo(prompt));
    InstructionNamesFields(ExtractInfo(prompt));
  }

  /** The TARGET PROFESSIONALS and EMAIL REQUIREMENTS blocks carry the extracted values. */
  lemma InstructionListsValues(info: ExtractedInfo)
    ensures Contains(Instruction(info), Bullet(JobFunctionsLabel, info.jobFunctions))
    ensures Contains(Instruction(info), Bullet(IndustryLabel, info.industry))
    ensures Contains(Instruction(info), Bullet(LocationLabel, info.location))
    ensures Contains(Instruction(info), Bullet(CompanySizeLabel, info.companySize))
    ensures Contains(Instruction(info), Item(info.emailRestrictions))
  {
    InstructionShowsLine(info, 3);
    InstructionShowsLine(info, 4);
    InstructionShowsLine(info, 5);
    InstructionShowsLine(info, 6);
    InstructionShowsLine(info, 12);
  }

  /** For every request the instruction carries the extracted values on their bullet lines. */
  lemma OptimizePromptListsValues(prompt: string)
    ensures Contains(OptimizePrompt(prompt), Bullet(JobFunctionsLabel, JobFunctions(prompt)))
    ensures Contains(OptimizePrompt(prompt), Bullet(IndustryLabel, ExtractIndustry(prompt)))
    ensures Contains(OptimizePrompt(prompt), Bullet(LocationLabel, Location(prompt)))
    ensures Contains(OptimizePrompt(prompt), Bullet(CompanySizeLabel, ExtractCompanySize(prompt)))
    ensures Contains(OptimizePrompt(prompt), Item(EmailRestrictions(prompt)))
  {
    InstructionSurvivesTrim(ExtractInfo(prompt));
    InstructionListsValues(ExtractInfo(prompt));
    IndustryIsFirstMatch(prompt);
    CompanySizeIsFirstMatch(prompt);
  }

  /** The output format is computed but never used: the instruction does not depend on it. */
  lemma OutputFormatIsUnused(info: ExtractedInfo, format: string)
    ensures Instruction(info.(outputFormat := format)) == Instruction(info)
  {
  }
}
