/**
 * What `generateEmails` does with the provider's reply: it takes the text
 * of the first choice, cuts the JSON array out of it with the greedy
 * pattern `\[[\s\S]*\]`, hands that text to `JSON.parse`, and keeps only the
 * records that pass a fixed address filter. Every failure on the way is
 * reported as one generic error.
 *
 * The chat-completion request itself and `JSON.parse` are foreign: the reply
 * is a parameter, and so is the parser (`None` when it throws).
 */
module OpenAiService {
  import opened Types
  import opened Text

  // ---------------------------------------------------------------------------
  // Cutting the JSON array out of the reply
  // ---------------------------------------------------------------------------

  /** The index of the first `c` in `s`, if any. */
  function FirstIndex(s: string, c: char): (r: Option<nat>)
    ensures r.Some? ==> r.value < |s| && s[r.value] == c
    ensures r.Some? ==> forall i :: 0 <= i < r.value ==> s[i] != c
    ensures r.None? ==> forall i :: 0 <= i < |s| ==> s[i] != c
  {
    if s == [] then None
    else if s[0] == c then Some(0)
    else match FirstIndex(s[1..], c) {
      case None => None
      case Some(i) => Some(i + 1)
    }
  }

  /** The index of the last `c` in `s`, if any. */
  function LastIndex(s: string, c: char): (r: Option<nat>)
    ensures r.Some? ==> r.value < |s| && s[r.value] == c
    ensures r.Some? ==> forall i :: r.value < i < |s| ==> s[i] != c
    ensures r.None? ==> forall i :: 0 <= i < |s| ==> s[i] != c
  {
    if s == [] then None
    else if s[|s| - 1] == c then Some(|s| - 1)
    else LastIndex(s[..|s| - 1], c)
  }

  /**
   * `response.match(/\[[\s\S]*\]/)`: the text from the first `[` to the last
   * `]`, both included, when that `]` comes after the first `[`.
   */
  function ExtractJsonArray(reply: string): (r: Option<string>)
    ensures r.Some? ==> |r.value| >= 2 && r.value[0] == '[' && r.value[|r.value| - 1] == ']'
  {
    match FirstIndex(reply, '[') {
      case None => None
      case Some(open) =>
        match LastIndex(reply, ']') {
          case None => None
          case Some(close) => if open < close then Some(reply[open..close + 1]) else None
        }
    }
  }

  /**
   * A match of the pattern `\[[\s\S]*\]` occupying `s[i..j]`: an opening
   * bracket, anything at all, a closing bracket.
   */
  predicate ArrayMatchAt(s: string, i: int, j: int) {
    0 <= i && i + 2 <= j <= |s| && s[i] == '[' && s[j - 1] == ']'
  }

  /**
   * The extraction is the regular-expression match: among all matches it
   * starts leftmost and, from there, reaches furthest (the greedy `*`); so
   * it covers every other match.
   */
  lemma ExtractJsonArrayIsRegexMatch(reply: string) returns (open: nat, end: nat)
    requires ExtractJsonArray(reply).Some?
    ensures ArrayMatchAt(reply, open, end) && ExtractJsonArray(reply).value == reply[open..end]
    ensures forall i, j :: ArrayMatchAt(reply, i, j) ==> open <= i && j <= end
  {
    open := FirstIndex(reply, '[').value;
    end := LastIndex(reply, ']').value + 1;
    forall i, j | ArrayMatchAt(reply, i, j) ensures open <= i && j <= end {
      assert reply[i] == '[' && reply[j - 1] == ']';
    }
  }

  /**
   * Extraction fails ("No valid JSON found in response") exactly when no `]`
   * follows a `[` anywhere in the reply, that is, when the pattern has no match.
   */
  lemma ExtractJsonArrayNoneIff(reply: string)
    ensures ExtractJsonArray(reply).None? <==>
      forall i, j :: 0 <= i < j < |reply| ==> !(reply[i] == '[' && reply[j] == ']')
  {
    if ExtractJsonArray(reply).Some? {
      var open, end := ExtractJsonArrayIsRegexMatch(reply);
      assert reply[open] == '[' && reply[end - 1] == ']';
    } else {
      forall i, j | 0 <= i < j < |reply| ensures !(reply[i] == '[' && reply[j] == ']') {
        var first, last := FirstIndex(reply, '['), LastIndex(reply, ']');
        assert reply[i] == '[' ==> first.Some? && first.value <= i;
        assert reply[j] == ']' ==> last.Some? && j <= last.value;
      }
    }
  }

  /** Text before the first `[` and after the last `]` (explanations, code fences) is dropped. */
  lemma ExtractJsonArraySurroundings(before: string, json: string, after: string)
    requires forall i :: 0 <= i < |before| ==> before[i] != '['
    requires forall i :: 0 <= i < |after| ==> after[i] != ']'
    requires |json| >= 2 && json[0] == '[' && json[|json| - 1] == ']'
    ensures ExtractJsonArray(before + json + after) == Some(json)
  {
    var s := before + json + after;
    var open := FirstIndex(s, '[');
    var close := LastIndex(s, ']');
    assert s[|before|] == '[';
    assert s[|before| + |json| - 1] == ']';
    assert forall i :: 0 <= i < |before| ==> s[i] != '[';
    assert forall i :: |before| + |json| <= i < |s| ==> s[i] != ']';
    assert s[|before|..|before| + |json|] == json;
  }

  // ---------------------------------------------------------------------------
  // The address filter
  // ---------------------------------------------------------------------------

  /**
   * The predicate of `emailResults.filter(...)`: a string field passes its
   * truthiness test when it is non-empty.
   */
  predicate IsKept(r: EmailResult) {
    var email := r.emailAddress;
    r.firstName != "" && r.lastName != "" && email != "" &&
    Contains(email, "@") &&
    !Contains(email, "@gmail.com") &&
    !Contains(email, "@yahoo.com") &&
    !Contains(email, "@hotmail.com") &&
    !StartsWith(email, "info@") &&
    !StartsWith(email, "admin@") &&
    !StartsWith(email, "contact@")
  }

  /** Free-mail domains the filter refuses anywhere in the address. */
  const BlockedDomains: seq<string> := ["@gmail.com", "@yahoo.com", "@hotmail.com"]

  /** Generic mailbox names the filter refuses at the start of the address. */
  const GenericMailboxes: seq<string> := ["info@", "admin@", "contact@"]

  /**
   * The filter's policy stated as deny lists: both names present, an `@` in
   * the address, no blocked domain in it and no generic mailbox at its start.
   */
  predicate Acceptable(r: EmailResult) {
    r.firstName != "" && r.lastName != "" &&
    Contains(r.emailAddress, "@") &&
    (forall k :: 0 <= k < |BlockedDomains| ==> !Contains(r.emailAddress, BlockedDomains[k])) &&
    (forall k :: 0 <= k < |GenericMailboxes| ==> !StartsWith(r.emailAddress, GenericMailboxes[k]))
  }

  /**
   * The filter is exactly the deny-list policy; in particular its separate
   * non-empty test on the address adds nothing, since an address holding an
   * `@` is never empty.
   */
  lemma IsKeptIffAcceptable(r: EmailResult)
    ensures IsKept(r) <==> Acceptable(r)
  {
    if Contains(r.emailAddress, "@") {
      var i := ContainsWitness(r.emailAddress, "@");
    }
    if Acceptable(r) {
      assert !Contains(r.emailAddress, BlockedDomains[0]);
      assert !Contains(r.emailAddress, BlockedDomains[1]);
      assert !Contains(r.emailAddress, BlockedDomains[2]);
      assert !StartsWith(r.emailAddress, GenericMailboxes[0]);
      assert !StartsWith(r.emailAddress, GenericMailboxes[1]);
      assert !StartsWith(r.emailAddress, GenericMailboxes[2]);
    }
  }

  /** The job title, the company name and the context are never looked at. */
  lemma IsKeptIgnoresOtherFields(r: EmailResult, jobTitle: string, companyName: string, context: string)
    ensures IsKept(r.(jobTitle := jobTitle, companyName := companyName, context := context)) == IsKept(r)
  {
  }

  /** Only the presence of `@` is required: nothing has to follow it, so "bob@" passes. */
  lemma BareMailboxIsKept()
    ensures IsKept(EmailResult("Bob", "Smith", "", "bob@", "", ""))
  {
    var email := "bob@";
    assert email[3] == '@';
    ContainsAt(email, "@", 3);
  }

  /** A generic mailbox is refused. */
  lemma InfoMailboxIsRefused(firstName: string, lastName: string)
    ensures !IsKept(EmailResult(firstName, lastName, "", "info@acme.com", "", ""))
  {
    var email := "info@acme.com";
    assert email[..5] == "info@";
  }

  /** A free-mail address is refused. */
  lemma GmailAddressIsRefused(firstName: string, lastName: string)
    ensures !IsKept(EmailResult(firstName, lastName, "", "jane@gmail.com", "", ""))
  {
    var email := "jane@gmail.com";
    assert email[4..14] == "@gmail.com";
    ContainsAt(email, "@gmail.com", 4);
  }

  /**
   * The instruction asks the model to avoid "support@" addresses, but the
   * filter does not refuse them.
   */
  lemma SupportMailboxIsKept()
    ensures IsKept(EmailResult("Sam", "Lee", "", "support@acme.com", "", ""))
  {
    var email := "support@acme.com";
    assert email[7] == '@';
    ContainsAt(email, "@", 7);
    forall i | 0 <= i <= |email| - 10 ensures !OccursAt(email, "@gmail.com", i) {
      assert email[i + 1] != "@gmail.com"[1];
    }
    forall i | 0 <= i <= |email| - 10 ensures !OccursAt(email, "@yahoo.com", i) {
      assert email[i + 1] != "@yahoo.com"[1];
    }
    forall i | 0 <= i <= |email| - 12 ensures !OccursAt(email, "@hotmail.com", i) {
      assert email[i + 1] != "@hotmail.com"[1];
    }
    assert email[0] == 's';
  }

  /** `emailResults.filter(IsKept)`: the passing records, in their original order. */
  function FilterResults(records: seq<EmailResult>): (kept: seq<EmailResult>)
    ensures |kept| <= |records|
    ensures forall r :: r in kept <==> r in records && IsKept(r)
  {
    if records == [] then []
    else if IsKept(records[0]) then [records[0]] + FilterResults(records[1..])
    else FilterResults(records[1..])
  }

  /** `xs` is `ys` with some elements removed and the rest in order. */
  predicate IsSubsequence(xs: seq<EmailResult>, ys: seq<EmailResult>)
    decreases |ys|
  {
    if xs == [] then true
    else if ys == [] then false
    else if xs[0] == ys[0] then IsSubsequence(xs[1..], ys[1..])
    else IsSubsequence(xs, ys[1..])
  }

  /** The filter keeps the order of the records it keeps. */
  lemma {:induction false} FilterIsSubsequence(records: seq<EmailResult>)
    ensures IsSubsequence(FilterResults(records), records)
  {
    if records != [] {
      FilterIsSubsequence(records[1..]);
      var rest := FilterResults(records[1..]);
      if !IsKept(records[0]) {
        assert records[0] !in rest;
      }
    }
  }

  /** Filtering the filtered records changes nothing. */
  lemma {:induction false} FilterIdempotent(records: seq<EmailResult>)
    ensures FilterResults(FilterResults(records)) == FilterResults(records)
  {
    if records != [] {
      FilterIdempotent(records[1..]);
      if IsKept(records[0]) {
        var kept := FilterResults(records);
        assert kept[1..] == FilterResults(records[1..]);
      }
    }
  }

  /** Records that all pass come back unchanged. */
  lemma {:induction false} FilterKeepsPassingRecords(records: seq<EmailResult>)
    requires forall k :: 0 <= k < |records| ==> IsKept(records[k])
    ensures FilterResults(records) == records
  {
    if records != [] {
      FilterKeepsPassingRecords(records[1..]);
      assert [records[0]] + records[1..] == records;
    }
  }

  /** The filter works record by record: filtering a concatenation filters each part. */
  lemma {:induction false} FilterAppend(a: seq<EmailResult>, b: seq<EmailResult>)
    ensures FilterResults(a + b) == FilterResults(a) + FilterResults(b)
  {
    if a != [] {
      assert (a + b)[1..] == a[1..] + b;
      FilterAppend(a[1..], b);
    } else {
      assert a + b == b;
    }
  }

  // ---------------------------------------------------------------------------
  // The whole call and its error paths
  // ---------------------------------------------------------------------------

  /**
   * What the provider gave back: the request threw (bad key, network), or it
   * answered with the content of its first choice, which may be missing.
   */
  datatype ProviderReply = CallFailed | Replied(content: Option<string>)

  /** Why a call failed, before the reason is discarded. */
  datatype FailureReason = RequestFailed | NoResponse | NoJsonFound | InvalidJson

  /** A parser standing for `JSON.parse`: `None` when it throws. */
  type JsonParser = string -> Option<seq<EmailResult>>

  /** The body of the `try` block: its result, or the reason it threw. */
  function Attempt(reply: ProviderReply, parse: JsonParser): Result<seq<EmailResult>, FailureReason> {
    match reply {
      case CallFailed => Failure(RequestFailed)
      case Replied(content) =>
        if content.None? || content.value == "" then Failure(NoResponse)
        else match ExtractJsonArray(content.value) {
          case None => Failure(NoJsonFound)
          case Some(json) =>
            match parse(json) {
              case None => Failure(InvalidJson)
              case Some(records) => Success(FilterResults(records))
            }
        }
    }
  }

  const GenericError := "Failed to generate emails. Please check your API key and try again."

  /**
   * `generateEmails`: the filtered records, or the one generic error that
   * the `catch` block throws in place of whatever went wrong.
   */
  function GenerateEmails(reply: ProviderReply, parse: JsonParser): (r: Result<seq<EmailResult>, string>)
    ensures r.Failure? ==> r.error == GenericError
    ensures r.Success? ==> forall k :: 0 <= k < |r.value| ==> IsKept(r.value[k])
  {
    match Attempt(reply, parse) {
      case Success(records) => Success(records)
      case Failure(_) => Failure(GenericError)
    }
  }

  /**
   * A call succeeds exactly when the provider answered with non-empty text
   * holding a bracketed array that parses; the result is then the filtered
   * parse, and nothing else.
   */
  lemma GenerateEmailsSucceedsIff(reply: ProviderReply, parse: JsonParser)
    ensures GenerateEmails(reply, parse).Success? <==>
      reply.Replied? && reply.content.Some? && reply.content.value != "" &&
      ExtractJsonArray(reply.content.value).Some? &&
      parse(ExtractJsonArray(reply.content.value).value).Some?
    ensures GenerateEmails(reply, parse).Success? ==>
      GenerateEmails(reply, parse).value ==
        FilterResults(parse(ExtractJsonArray(reply.content.value).value).value)
  {
  }

  /** A missing or empty reply fails before extraction: the parser is never consulted. */
  lemma EmptyReplyFailsFirst(content: Option<string>, parse: JsonParser)
    requires content.None? || content.value == ""
    ensures Attempt(Replied(content), parse) == Failure(NoResponse)
  {
  }

  /** A reply without a bracketed array fails before parsing. */
  lemma NoArrayFailsBeforeParsing(text: string, parse: JsonParser)
    requires text != "" && ExtractJsonArray(text).None?
    ensures Attempt(Replied(Some(text)), parse) == Failure(NoJsonFound)
  {
  }

  /**
   * There is no partial result and no way to tell failures apart: any two
   * failing calls report the same thing.
   */
  lemma FailuresAreIndistinguishable(reply1: ProviderReply, parse1: JsonParser, reply2: ProviderReply, parse2: JsonParser)
    requires Attempt(reply1, parse1).Failure? && Attempt(reply2, parse2).Failure?
    ensures GenerateEmails(reply1, parse1) == GenerateEmails(reply2, parse2) == Failure(GenericError)
  {
  }
}
