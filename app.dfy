/**
 * The page's own logic: the CSV text that "Export CSV" downloads, and the
 * guards and state updates of a search. Rendering, the download itself and
 * the alert box are browser I/O and are not modelled.
 */
module App {
  import opened Types
  import opened Text
  import PromptOptimizer
  import OpenAiService

  // ---------------------------------------------------------------------------
  // CSV export
  // ---------------------------------------------------------------------------

  const HeaderFields: seq<string> := ["First Name", "Last Name", "Job Title", "Email Address", "Company Name", "Context"]

  /** `headers.join(',')`. */
  const Header: string := Join(HeaderFields, ",")

  /** The six cells of one row: only the context is wrapped in quotes, and nothing is escaped. */
  function RowFields(r: EmailResult): seq<string> {
    [r.firstName, r.lastName, r.jobTitle, r.emailAddress, r.companyName, "\"" + r.context + "\""]
  }

  /** One data line of the file. */
  function Row(r: EmailResult): string {
    Join(RowFields(r), ",")
  }

  /** `results.map(...)`: one line per record, in result order. */
  function Rows(results: seq<EmailResult>): seq<string> {
    seq(|results|, i requires 0 <= i < |results| => Row(results[i]))
  }

  /**
   * `exportToCSV`: nothing when there are no results; otherwise the header
   * line and the rows, joined with newlines and with no trailing newline.
   */
  function ExportCsv(results: seq<EmailResult>): (csv: Option<string>)
    ensures csv.None? <==> results == []
  {
    if |results| == 0 then None
    else Some(Join([Header] + Rows(results), "\n"))
  }

  /** A join of line-free parts with a line-free separator is line-free. */
  lemma {:induction false} JoinHasNoNewline(parts: seq<string>, sep: string)
    requires '\n' !in sep
    requires forall k :: 0 <= k < |parts| ==> '\n' !in parts[k]
    ensures '\n' !in Join(parts, sep)
  {
    if |parts| > 1 {
      JoinHasNoNewline(parts[1..], sep);
    }
  }

  lemma HeaderHasNoNewline()
    ensures '\n' !in Header
  {
    forall k | 0 <= k < |HeaderFields| ensures '\n' !in HeaderFields[k] {
      var f := HeaderFields[k];
      assert forall i :: 0 <= i < |f| ==> f[i] != '\n';
    }
    JoinHasNoNewline(HeaderFields, ",");
  }

  /** The first line of an export is the header, whatever the records hold. */
  lemma ExportFirstLineIsHeader(results: seq<EmailResult>)
    requires results != []
    ensures Split(ExportCsv(results).value, '\n')[0] == Header
  {
    var lines := [Header] + Rows(results);
    assert lines[1..] == Rows(results);
    HeaderHasNoNewline();
    SplitAfterPiece(Header, '\n', Join(Rows(results), "\n"));
  }

  /** No field of the record holds a line break. */
  predicate LineFree(r: EmailResult) {
    '\n' !in r.firstName && '\n' !in r.lastName && '\n' !in r.jobTitle &&
    '\n' !in r.emailAddress && '\n' !in r.companyName && '\n' !in r.context
  }

  lemma RowHasNoNewline(r: EmailResult)
    requires LineFree(r)
    ensures '\n' !in Row(r)
  {
    JoinHasNoNewline(RowFields(r), ",");
  }

  /**
   * When no field holds a line break, the file's lines are the header and
   * one row per record, in result order: `results.length + 1` lines.
   */
  lemma ExportLines(results: seq<EmailResult>)
    requires results != []
    requires forall k :: 0 <= k < |results| ==> LineFree(results[k])
    ensures Split(ExportCsv(results).value, '\n') == [Header] + Rows(results)
    ensures |Split(ExportCsv(results).value, '\n')| == |results| + 1
  {
    var lines := [Header] + Rows(results);
    HeaderHasNoNewline();
    forall k | 0 <= k < |lines| ensures '\n' !in lines[k] {
      if k > 0 {
        RowHasNoNewline(results[k - 1]);
      }
    }
    SplitJoin(lines, '\n');
  }

  /**
   * Reading a row back: five comma-separated cells, then the rest of the
   * line, which must be wrapped in quotes, as the context.
   */
  function ParseRow(line: string): Option<EmailResult> {
    var cells := Split(line, ',');
    if |cells| < 6 then None
    else
      var quoted := Join(cells[5..], ",");
      if |quoted| >= 2 && quoted[0] == '"' && quoted[|quoted| - 1] == '"' then
        Some(EmailResult(cells[0], cells[1], cells[2], cells[3], cells[4], quoted[1..|quoted| - 1]))
      else None
  }

  /** The five unquoted cells hold no comma. */
  predicate CommaFree(r: EmailResult) {
    ',' !in r.firstName && ',' !in r.lastName && ',' !in r.jobTitle &&
    ',' !in r.emailAddress && ',' !in r.companyName
  }

  /**
   * A row reads back as its record when its five unquoted cells hold no
   * comma; the quoted context may hold anything.
   */
  lemma RowRoundTrip(r: EmailResult)
    requires CommaFree(r)
    ensures ParseRow(Row(r)) == Some(r)
  {
    var fields := RowFields(r);
    var quoted := fields[5];
    SplitJoinLast(fields, ',');
    var cells := Split(Row(r), ',');
    assert cells[5..] == Split(quoted, ',');
    JoinSplit(quoted, ',');
    assert quoted[1..|quoted| - 1] == r.context;
  }

  /** A comma in the first name shifts every cell: the row no longer reads back as its record. */
  lemma CommaInFirstNameBreaksRow(r: EmailResult)
    requires ',' in r.firstName
    ensures ParseRow(Row(r)).Some? ==> ParseRow(Row(r)).value.firstName != r.firstName
  {
    var fields := RowFields(r);
    assert Row(r) == r.firstName + ("," + Join(fields[1..], ","));
    SplitFirstPieceShorter(r.firstName, "," + Join(fields[1..], ","), ',');
  }

  /** Reading the data lines back, all or nothing. */
  function ParseRows(lines: seq<string>): Option<seq<EmailResult>> {
    if lines == [] then Some([])
    else match (ParseRow(lines[0]), ParseRows(lines[1..])) {
      case (Some(r), Some(rs)) => Some([r] + rs)
      case _ => None
    }
  }

  /** Reading an exported file back: the header line, then the rows. */
  function ParseCsv(text: string): Option<seq<EmailResult>> {
    var lines := Split(text, '\n');
    if lines[0] == Header then ParseRows(lines[1..]) else None
  }

  lemma {:induction false} ParseRowsRoundTrip(results: seq<EmailResult>)
    requires forall k :: 0 <= k < |results| ==> CommaFree(results[k])
    ensures ParseRows(Rows(results)) == Some(results)
  {
    if results != [] {
      RowRoundTrip(results[0]);
      ParseRowsRoundTrip(results[1..]);
      assert Rows(results)[1..] == Rows(results[1..]);
      assert [results[0]] + results[1..] == results;
    }
  }

  /**
   * An export reads back as the records it was made from, when no field
   * holds a line break and no unquoted cell holds a comma.
   */
  lemma ExportRoundTrip(results: seq<EmailResult>)
    requires results != []
    requires forall k :: 0 <= k < |results| ==> LineFree(results[k]) && CommaFree(results[k])
    ensures ParseCsv(ExportCsv(results).value) == Some(results)
  {
    ExportLines(results);
    assert ([Header] + Rows(results))[1..] == Rows(results);
    ParseRowsRoundTrip(results);
  }

  // ---------------------------------------------------------------------------
  // Searching
  // ---------------------------------------------------------------------------

  /** What a search did, including the alert it raised, if any. */
  datatype SearchOutcome = Ignored | AskedForKey | Generated | Failed(alert: string)

  const SearchAlert := "Error generating emails. Please check your API key and try again."

  /** The chat-completion request: the instruction and the key in, the provider's reply out. */
  type ChatProvider = (string, string) -> OpenAiService.ProviderReply

  /** The page's state, one field per `useState`. */
  class SearchPage {
    var prompt: string
    var results: seq<EmailResult>
    var loading: bool
    var showApiModal: bool
    var apiKey: string
    var optimizedPrompt: string

    constructor ()
      ensures prompt == "" && results == [] && !loading && !showApiModal
      ensures apiKey == "" && optimizedPrompt == ""
    {
      prompt := "";
      results := [];
      loading := false;
      showApiModal := false;
      apiKey := "";
      optimizedPrompt := "";
    }

    /**
     * `handleSearch`: a whitespace-only prompt does nothing; a missing key
     * only opens the key dialog; otherwise the optimized instruction is kept,
     * the generator runs on it, a success replaces the results wholesale, a
     * failure keeps the old ones and raises the alert, and loading ends
     * either way.
     */
    method HandleSearch(provider: ChatProvider, parse: OpenAiService.JsonParser) returns (outcome: SearchOutcome)
      modifies this
      ensures IsBlank(old(prompt)) ==> outcome == Ignored && unchanged(this)
      ensures !IsBlank(old(prompt)) && old(apiKey) == "" ==>
        outcome == AskedForKey && showApiModal &&
        prompt == old(prompt) && results == old(results) && loading == old(loading) &&
        apiKey == old(apiKey) && optimizedPrompt == old(optimizedPrompt)
      ensures !IsBlank(old(prompt)) && old(apiKey) != "" ==>
        optimizedPrompt == PromptOptimizer.OptimizePrompt(old(prompt)) && !loading &&
        prompt == old(prompt) && apiKey == old(apiKey) && showApiModal == old(showApiModal) &&
        var response := OpenAiService.GenerateEmails(provider(optimizedPrompt, apiKey), parse);
        (response.Success? ==> outcome == Generated && results == response.value) &&
        (response.Failure? ==> outcome == Failed(SearchAlert) && results == old(results))
      ensures outcome == Generated ==> forall k :: 0 <= k < |results| ==> OpenAiService.IsKept(results[k])
    {
      TrimEmptyIffBlank(prompt);
      if Trim(prompt) == "" {
        return Ignored;
      }
      if apiKey == "" {
        showApiModal := true;
        return AskedForKey;
      }
      loading := true;
      outcome := Generate(prompt, apiKey, provider, parse);
      loading := false;
    }

    /** The `try` block of `handleSearch`: optimize the prompt, keep the result, and deliver it. */
    method Generate(text: string, key: string, provider: ChatProvider, parse: OpenAiService.JsonParser) returns (outcome: SearchOutcome)
      modifies this
      ensures optimizedPrompt == PromptOptimizer.OptimizePrompt(text)
      ensures Delivered(optimizedPrompt, key, provider, parse, old(results), outcome)
      ensures prompt == old(prompt) && apiKey == old(apiKey) && showApiModal == old(showApiModal)
      ensures loading == old(loading)
    {
      var optimized := PromptOptimizer.OptimizePrompt(text);
      optimizedPrompt := optimized;
      outcome := Deliver(optimized, key, provider, parse);
    }

    /** What delivering the instruction leaves behind: the new results on success, the alert on failure. */
    ghost predicate Delivered(sent: string, key: string, provider: ChatProvider, parse: OpenAiService.JsonParser,
                              results0: seq<EmailResult>, outcome: SearchOutcome)
      reads this
    {
      var response := OpenAiService.GenerateEmails(provider(sent, key), parse);
      (response.Success? ==> outcome == Generated && results == response.value) &&
      (response.Failure? ==> outcome == Failed(SearchAlert) && results == results0)
    }

    /** Send the instruction, then replace the results on success or raise the alert on failure. */
    method Deliver(sent: string, key: string, provider: ChatProvider, parse: OpenAiService.JsonParser) returns (outcome: SearchOutcome)
      modifies this
      ensures Delivered(sent, key, provider, parse, old(results), outcome)
      ensures prompt == old(prompt) && apiKey == old(apiKey) && showApiModal == old(showApiModal)
      ensures loading == old(loading) && optimizedPrompt == old(optimizedPrompt)
    {
      var response := OpenAiService.GenerateEmails(provider(sent, key), parse);
      if response.Success? {
        results := response.value;
        outcome := Generated;
      } else {
        outcome := Failed(SearchAlert);
      }
    }
  }
}
