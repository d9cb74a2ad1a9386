/**
 * The batch API's "adjust charge" strategy: it takes a relative URL of the
 * form loans/{loanId}/charges/{chargeId}?command={command}, pulls the two ids
 * and the command out of it, hands them to the loan charges resource and
 * wraps the answer in a BatchResponse (200), or answers 501 when the URL
 * carries no command.
 */
module AdjustCharge {
  import opened Common
  import opened Text

  const StatusOk: int := 200
  const StatusNotImplemented: int := 501

  datatype Header = Header(name: string, value: string)

  datatype BatchRequest = BatchRequest(
    requestId: int,
    relativeUrl: string,
    httpMethod: string,
    headers: set<Header>,
    body: string)

  /** The exceptions that escape execute: List.get past the end and Long.parseLong on a non-number. */
  datatype Thrown = IndexOutOfBounds(index: nat) | NumberFormat(input: string)

  /** The four fields execute sets on the response it returns. */
  datatype ResponseValue = ResponseValue(requestId: int, headers: set<Header>, statusCode: int, body: string)

  datatype Outcome = Responded(response: ResponseValue) | Threw(exception: Thrown)

  /** The loan charges resource's executeLoanCharge(loanId, chargeId, command, json). */
  type ChargeResource = (int, int, string, string) -> string

  // ---------------------------------------------------------------------
  // The command query parameter: the pattern ^?command=[a-zA-Z]+, searched
  // with Matcher.find. The leading ^? is an optional anchor, so a match may
  // start anywhere; the leftmost match wins and its letter run is greedy.
  // ---------------------------------------------------------------------

  const CommandPrefix: string := "command="

  predicate IsAsciiLetter(c: char) {
    ('a' <= c <= 'z') || ('A' <= c <= 'Z')
  }

  /** command= followed by at least one ASCII letter starts at position i of seg. */
  predicate CommandMatchAt(seg: string, i: nat) {
    && i + |CommandPrefix| < |seg|
    && seg[i..i + |CommandPrefix|] == CommandPrefix
    && IsAsciiLetter(seg[i + |CommandPrefix|])
  }

  /** Where find() succeeds when it scans seg from position from onwards. */
  function FirstCommandMatch(seg: string, from: nat): (r: Option<nat>)
    ensures r.Some? ==> from <= r.value && CommandMatchAt(seg, r.value)
    ensures r.Some? ==> forall j :: from <= j < r.value ==> !CommandMatchAt(seg, j)
    ensures r.None? ==> forall j: nat :: from <= j ==> !CommandMatchAt(seg, j)
    decreases |seg| - from
  {
    if from >= |seg| then None
    else if CommandMatchAt(seg, from) then Some(from)
    else FirstCommandMatch(seg, from + 1)
  }

  /** The greedy [a-zA-Z]+ part: the longest prefix of s made of ASCII letters. */
  function LetterRun(s: string): (run: string)
    ensures |run| <= |s| && run == s[..|run|]
    ensures forall k :: 0 <= k < |run| ==> IsAsciiLetter(run[k])
    ensures |run| == |s| || !IsAsciiLetter(s[|run|])
  {
    if s != [] && IsAsciiLetter(s[0]) then
      var rest := LetterRun(s[1..]);
      assert s[..1 + |rest|] == [s[0]] + s[1..][..|rest|];
      [s[0]] + rest
    else []
  }

  /**
   * What execute makes of a match at i: group(0) is command= and the letter
   * run, and the command is group(0) after its first '='.
   */
  function CommandFromMatch(seg: string, i: nat): string
    requires CommandMatchAt(seg, i)
  {
    var start := i + |CommandPrefix|;
    var group := seg[i..start + |LetterRun(seg[start..])|];
    group[IndexOf(group, '=') + 1..]
  }

  /** find() followed by the cut at '=': None when find() fails. */
  function FindCommand(seg: string): (r: Option<string>)
    ensures r.None? <==> forall j: nat :: !CommandMatchAt(seg, j)
    ensures r.Some? ==> |r.value| >= 1 && forall k :: 0 <= k < |r.value| ==> IsAsciiLetter(r.value[k])
  {
    match FirstCommandMatch(seg, 0)
    case None => None
    case Some(i) =>
      CommandAfterPrefix(seg, i);
      Some(CommandFromMatch(seg, i))
  }

  /** At a match at i, the command is the letter run right after command=. */
  lemma CommandAfterPrefix(seg: string, i: nat)
    requires CommandMatchAt(seg, i)
    ensures CommandFromMatch(seg, i) == LetterRun(seg[i + |CommandPrefix|..])
    ensures |CommandFromMatch(seg, i)| >= 1
  {
    var start := i + |CommandPrefix|;
    var run := LetterRun(seg[start..]);
    var group := seg[i..start + |run|];
    assert seg[start..][0] == seg[start];
    assert group == seg[i..start] + seg[start..][..|run|];
    assert CommandPrefix == "command" + ['='];
    assert group == "command" + ['='] + run;
    IndexOfAfterPrefix("command", '=', run);
  }

  /** The command is the letter run after the leftmost command= match. */
  lemma {:induction false} FindCommandIsLeftmostRun(seg: string, i: nat)
    requires CommandMatchAt(seg, i)
    requires forall j :: 0 <= j < i ==> !CommandMatchAt(seg, j)
    ensures FindCommand(seg) == Some(LetterRun(seg[i + |CommandPrefix|..]))
  {
    FirstMatchFrom(seg, 0, i);
    CommandAfterPrefix(seg, i);
  }

  /** find() from position from stops at the first match p at or after it. */
  lemma {:induction false} FirstMatchFrom(seg: string, from: nat, p: nat)
    requires from <= p && CommandMatchAt(seg, p)
    requires forall j :: from <= j < p ==> !CommandMatchAt(seg, j)
    ensures FirstCommandMatch(seg, from) == Some(p)
    decreases p - from
  {
    if from < p {
      FirstMatchFrom(seg, from + 1, p);
    }
  }

  /** The letter run of a word of letters followed by a non-letter (or nothing) is that word. */
  lemma {:induction false} LetterRunOfWord(word: string, tail: string)
    requires forall k :: 0 <= k < |word| ==> IsAsciiLetter(word[k])
    requires tail == [] || !IsAsciiLetter(tail[0])
    ensures LetterRun(word + tail) == word
  {
    if word == [] {
      assert word + tail == tail;
    } else {
      assert (word + tail)[1..] == word[1..] + tail;
      LetterRunOfWord(word[1..], tail);
    }
  }

  // ---------------------------------------------------------------------
  // The charge id: the fourth segment up to its first '?'.
  // ---------------------------------------------------------------------

  /** The text parsed as the charge id: seg cut before its first '?', or all of seg. */
  function ChargeIdText(seg: string): (t: string)
    ensures '?' !in t
    ensures |t| <= |seg| && t == seg[..|t|]
    ensures |t| < |seg| ==> seg[|t|] == '?'
    ensures t == seg <==> '?' !in seg
  {
    if '?' in seg then seg[..IndexOf(seg, '?')] else seg
  }

  // ---------------------------------------------------------------------
  // execute
  // ---------------------------------------------------------------------

  /** The 501 body for a URL that names no command. */
  function NotImplementedBody(request: BatchRequest): string {
    "Resource with method " + request.httpMethod + " and relativeUrl " + request.relativeUrl + " doesn't exist"
  }

  /**
   * What execute returns or throws, in the order the source takes its steps:
   * segment 1 is fetched and parsed first, then segment 3 is fetched and
   * searched for the command, and only then is the charge id parsed.
   */
  function Respond(request: BatchRequest, executeLoanCharge: ChargeResource): (r: Outcome)
    ensures r.Responded? ==> r.response.requestId == request.requestId
    ensures r.Responded? ==> r.response.headers == request.headers
    ensures r.Responded? ==> r.response.statusCode == StatusOk || r.response.statusCode == StatusNotImplemented
  {
    var parts := Split(request.relativeUrl, '/');
    if |parts| < 2 then Threw(IndexOutOfBounds(1))
    else
      match ParseLong(parts[1])
      case None => Threw(NumberFormat(parts[1]))
      case Some(loanId) =>
        if |parts| < 4 then Threw(IndexOutOfBounds(3))
        else
          match FindCommand(parts[3])
          case None =>
            Responded(ResponseValue(request.requestId, request.headers, StatusNotImplemented, NotImplementedBody(request)))
          case Some(command) =>
            var chargeText := ChargeIdText(parts[3]);
            match ParseLong(chargeText)
            case None => Threw(NumberFormat(chargeText))
            case Some(chargeId) =>
              Responded(ResponseValue(request.requestId, request.headers, StatusOk,
                                      executeLoanCharge(loanId, chargeId, command, request.body)))
  }

  /** The URL of an adjustment: resource/loanId/charges/chargeId?command=...tail. */
  function AdjustmentUrl(resource: string, loanId: int, charges: string, chargeId: int, command: string, tail: string): string {
    resource + "/" + FormatLong(loanId) + "/" + charges + "/" + ChargeSegment(chargeId, command, tail)
  }

  /** The last segment of an adjustment URL: chargeId?command=...tail. */
  function ChargeSegment(chargeId: int, command: string, tail: string): string {
    FormatLong(chargeId) + "?" + CommandPrefix + command + tail
  }

  /**
   * Round trip: a URL built from a loan id, a charge id and a command is
   * answered 200 with exactly what the charges resource returns for those
   * three values and the request body.
   */
  lemma AdjustmentUrlRoundTrip(
    request: BatchRequest, executeLoanCharge: ChargeResource,
    resource: string, loanId: int, charges: string, chargeId: int, command: string, tail: string)
    requires MinLong <= loanId <= MaxLong && MinLong <= chargeId <= MaxLong
    requires '/' !in resource && '/' !in charges && '/' !in command && '/' !in tail
    requires |command| >= 1 && forall k :: 0 <= k < |command| ==> IsAsciiLetter(command[k])
    requires tail == [] || !IsAsciiLetter(tail[0])
    requires request.relativeUrl == AdjustmentUrl(resource, loanId, charges, chargeId, command, tail)
    ensures Respond(request, executeLoanCharge)
         == Responded(ResponseValue(request.requestId, request.headers, StatusOk,
                                    executeLoanCharge(loanId, chargeId, command, request.body)))
  {
    AdjustmentUrlParsed(request.relativeUrl, resource, loanId, charges, chargeId, command, tail);
    RespondWhenParsed(request, executeLoanCharge, loanId, chargeId, command);
  }

  /** The loan id, the command and the charge id read back from an adjustment URL. */
  lemma AdjustmentUrlParsed(
    url: string, resource: string, loanId: int, charges: string, chargeId: int, command: string, tail: string)
    requires MinLong <= loanId <= MaxLong && MinLong <= chargeId <= MaxLong
    requires '/' !in resource && '/' !in charges && '/' !in command && '/' !in tail
    requires |command| >= 1 && forall k :: 0 <= k < |command| ==> IsAsciiLetter(command[k])
    requires tail == [] || !IsAsciiLetter(tail[0])
    requires url == AdjustmentUrl(resource, loanId, charges, chargeId, command, tail)
    ensures var parts := Split(url, '/');
            && |parts| >= 4
            && ParseLong(parts[1]) == Some(loanId)
            && FindCommand(parts[3]) == Some(command)
            && ParseLong(ChargeIdText(parts[3])) == Some(chargeId)
  {
    var seg := ChargeSegment(chargeId, command, tail);
    AdjustmentUrlSegments(resource, loanId, charges, chargeId, command, tail);
    SegmentsParsed(Split(url, '/'), resource, loanId, charges, chargeId, command, tail);
  }

  /** The same, on the four segments. */
  lemma SegmentsParsed(
    parts: seq<string>, resource: string, loanId: int, charges: string, chargeId: int, command: string, tail: string)
    requires MinLong <= loanId <= MaxLong && MinLong <= chargeId <= MaxLong
    requires |command| >= 1 && forall k :: 0 <= k < |command| ==> IsAsciiLetter(command[k])
    requires tail == [] || !IsAsciiLetter(tail[0])
    requires parts == [resource, FormatLong(loanId), charges, ChargeSegment(chargeId, command, tail)]
    ensures |parts| >= 4
    ensures ParseLong(parts[1]) == Some(loanId)
    ensures FindCommand(parts[3]) == Some(command)
    ensures ParseLong(ChargeIdText(parts[3])) == Some(chargeId)
  {
    var seg := parts[3];
    assert seg == ChargeSegment(chargeId, command, tail);
    FormatThenParse(loanId);
    ChargeSegmentCommand(chargeId, command, tail);
    ChargeSegmentId(chargeId, command, tail);
    assert ChargeIdText(seg) == FormatLong(chargeId);
    FormatThenParse(chargeId);
  }

  /** Once segment 1 parses, segment 3 names a command and its charge id parses, execute answers 200. */
  lemma RespondWhenParsed(request: BatchRequest, executeLoanCharge: ChargeResource, loanId: int, chargeId: int, command: string)
    requires var parts := Split(request.relativeUrl, '/');
             && |parts| >= 4
             && ParseLong(parts[1]) == Some(loanId)
             && FindCommand(parts[3]) == Some(command)
             && ParseLong(ChargeIdText(parts[3])) == Some(chargeId)
    ensures Respond(request, executeLoanCharge)
         == Responded(ResponseValue(request.requestId, request.headers, StatusOk,
                                    executeLoanCharge(loanId, chargeId, command, request.body)))
  {
  }

  /** The four '/'-separated segments of an adjustment URL. */
  lemma AdjustmentUrlSegments(resource: string, loanId: int, charges: string, chargeId: int, command: string, tail: string)
    requires '/' !in resource && '/' !in charges && '/' !in command && '/' !in tail
    ensures Split(AdjustmentUrl(resource, loanId, charges, chargeId, command, tail), '/')
         == [resource, FormatLong(loanId), charges, ChargeSegment(chargeId, command, tail)]
  {
    NumberChars(loanId);
    NoSlashInChargeSegment(chargeId, command, tail);
    SplitFour(resource, FormatLong(loanId), charges, ChargeSegment(chargeId, command, tail));
  }

  /** Four segments without '/' joined by '/' split back into themselves. */
  lemma SplitFour(a: string, b: string, c: string, d: string)
    requires '/' !in a && '/' !in b && '/' !in c && '/' !in d
    ensures Split(a + "/" + b + "/" + c + "/" + d, '/') == [a, b, c, d]
  {
    var segments := [a, b, c, d];
    forall k | 0 <= k < 4 ensures '/' !in segments[k] {
    }
    JoinFour(a, b, c, d);
    SplitJoin(segments, '/');
  }

  lemma NoSlashInChargeSegment(chargeId: int, command: string, tail: string)
    requires '/' !in command && '/' !in tail
    ensures '/' !in ChargeSegment(chargeId, command, tail)
  {
    NumberChars(chargeId);
    assert '/' !in CommandPrefix;
  }

  lemma JoinFour(a: string, b: string, c: string, d: string)
    ensures Join([a, b, c, d], '/') == a + "/" + b + "/" + c + "/" + d
  {
    var segments := [a, b, c, d];
    assert segments[1..] == [b, c, d] && segments[1..][1..] == [c, d] && segments[1..][1..][1..] == [d];
    assert Join([c, d], '/') == c + "/" + d;
    assert Join([b, c, d], '/') == b + "/" + (c + "/" + d);
  }

  /** In chargeId?command=...tail the command found is command. */
  lemma ChargeSegmentCommand(chargeId: int, command: string, tail: string)
    requires |command| >= 1 && forall k :: 0 <= k < |command| ==> IsAsciiLetter(command[k])
    requires tail == [] || !IsAsciiLetter(tail[0])
    ensures FindCommand(ChargeSegment(chargeId, command, tail)) == Some(command)
  {
    NumberChars(chargeId);
    QuerySegmentCommand(FormatLong(chargeId), command, tail);
  }

  /** In chargeId?command=...tail the charge id text is chargeId. */
  lemma ChargeSegmentId(chargeId: int, command: string, tail: string)
    ensures ChargeIdText(ChargeSegment(chargeId, command, tail)) == FormatLong(chargeId)
  {
    var chargeText := FormatLong(chargeId);
    var query := CommandPrefix + command + tail;
    NumberChars(chargeId);
    ChargeIdBeforeQuery(chargeText, query);
    assert chargeText + "?" + CommandPrefix + command + tail == chargeText + ['?'] + query;
  }

  /** The charge id text of text?query is text when text has no '?'. */
  lemma ChargeIdBeforeQuery(text: string, query: string)
    requires '?' !in text
    ensures ChargeIdText(text + ['?'] + query) == text
  {
    var seg := text + ['?'] + query;
    IndexOfAfterPrefix(text, '?', query);
    assert seg[|text|] == '?';
    assert seg[..|text|] == text;
  }

  /** After a text without 'c' and a '?', the first command= is the one that follows. */
  lemma QuerySegmentCommand(text: string, command: string, tail: string)
    requires 'c' !in text
    requires |command| >= 1 && forall k :: 0 <= k < |command| ==> IsAsciiLetter(command[k])
    requires tail == [] || !IsAsciiLetter(tail[0])
    ensures FindCommand(text + "?" + CommandPrefix + command + tail) == Some(command)
  {
    var seg := text + "?" + CommandPrefix + command + tail;
    var p := |text| + 1;
    assert seg[..p] == text + "?";
    assert seg[p..] == CommandPrefix + command + tail;
    assert seg[p..p + |CommandPrefix|] == CommandPrefix;
    assert seg[p + |CommandPrefix|..] == command + tail;
    assert CommandMatchAt(seg, p);
    forall j | 0 <= j < p
      ensures !CommandMatchAt(seg, j)
    {
      assert seg[j] == seg[..p][j];
      if j + |CommandPrefix| < |seg| {
        assert seg[j..j + |CommandPrefix|][0] == seg[j];
      }
    }
    FindCommandIsLeftmostRun(seg, p);
    LetterRunOfWord(command, tail);
  }

  /** A formatted number holds only a minus sign and digits. */
  lemma NumberChars(n: int)
    ensures '/' !in FormatLong(n) && '?' !in FormatLong(n) && 'c' !in FormatLong(n)
  {
    var s := FormatLong(n);
    forall k | 0 <= k < |s| ensures s[k] == '-' || IsDigit(s[k]) {
      if n < 0 && k > 0 { assert s[k] == FormatNat(-n)[k - 1]; }
    }
  }

  /** A URL with fewer than four segments is an exception, never a response. */
  lemma ShortUrlThrows(request: BatchRequest, executeLoanCharge: ChargeResource)
    requires |Split(request.relativeUrl, '/')| < 4
    ensures Respond(request, executeLoanCharge).Threw?
  {
  }

  /**
   * The loan id is parsed before the command is looked for: a segment 1
   * that is not a number fails with NumberFormatException whatever the rest
   * of the URL holds.
   */
  lemma BadLoanIdThrowsFirst(request: BatchRequest, executeLoanCharge: ChargeResource)
    requires |Split(request.relativeUrl, '/')| >= 2
    requires ParseLong(Split(request.relativeUrl, '/')[1]).None?
    ensures Respond(request, executeLoanCharge) == Threw(NumberFormat(Split(request.relativeUrl, '/')[1]))
  {
  }

  /**
   * 501 comes exactly when the URL has four segments, segment 1 is a number
   * and segment 3 has no command= followed by a letter; its body names the
   * method and the URL.
   */
  lemma NotImplementedExactly(request: BatchRequest, executeLoanCharge: ChargeResource)
    ensures var r := Respond(request, executeLoanCharge);
            var parts := Split(request.relativeUrl, '/');
            (r.Responded? && r.response.statusCode == StatusNotImplemented)
            <==> (|parts| >= 4 && ParseLong(parts[1]).Some? && forall j: nat :: !CommandMatchAt(parts[3], j))
    ensures var r := Respond(request, executeLoanCharge);
            r.Responded? && r.response.statusCode == StatusNotImplemented ==> r.response.body == NotImplementedBody(request)
  {
  }

  /** On the 501 path the charges resource is not consulted: any resource gives the same answer. */
  lemma NotImplementedIgnoresResource(request: BatchRequest, f: ChargeResource, g: ChargeResource)
    requires Respond(request, f).Responded? && Respond(request, f).response.statusCode == StatusNotImplemented
    ensures Respond(request, f) == Respond(request, g)
  {
  }

  /**
   * A 200 answer carries exactly what the charges resource returned for the
   * parsed loan id, the parsed charge id, the command and the request body.
   */
  lemma SuccessCarriesResourceAnswer(request: BatchRequest, executeLoanCharge: ChargeResource)
    requires Respond(request, executeLoanCharge).Responded?
    requires Respond(request, executeLoanCharge).response.statusCode == StatusOk
    ensures var parts := Split(request.relativeUrl, '/');
            && |parts| >= 4
            && ParseLong(parts[1]).Some?
            && FindCommand(parts[3]).Some?
            && ParseLong(ChargeIdText(parts[3])).Some?
            && Respond(request, executeLoanCharge).response.body
               == executeLoanCharge(ParseLong(parts[1]).value, ParseLong(ChargeIdText(parts[3])).value,
                                    FindCommand(parts[3]).value, request.body)
  {
  }

  // ---------------------------------------------------------------------
  // The mutable response object and execute itself.
  // ---------------------------------------------------------------------

  /** BatchResponse: a bean whose fields start out null and are set one by one. */
  class BatchResponse {
    var requestId: Option<int>
    var headers: Option<set<Header>>
    var statusCode: Option<int>
    var body: Option<string>

    constructor ()
      ensures requestId == None && headers == None && statusCode == None && body == None
    {
      requestId, headers, statusCode, body := None, None, None, None;
    }

    /** The response's fields as a value, once all four are set. */
    function Snapshot(): Option<ResponseValue>
      reads this
    {
      if requestId.Some? && headers.Some? && statusCode.Some? && body.Some? then
        Some(ResponseValue(requestId.value, headers.value, statusCode.value, body.value))
      else None
    }
  }

  datatype Executed = Returned(response: BatchResponse) | Raised(exception: Thrown)

  /** AdjustChargeCommandStrategy.execute: builds the response setter by setter. */
  method Execute(request: BatchRequest, executeLoanCharge: ChargeResource) returns (r: Executed)
    ensures r.Returned? <==> Respond(request, executeLoanCharge).Responded?
    ensures r.Returned? ==> fresh(r.response)
    ensures r.Returned? ==> r.response.Snapshot() == Some(Respond(request, executeLoanCharge).response)
    ensures r.Raised? ==> r.exception == Respond(request, executeLoanCharge).exception
  {
    var response := new BatchResponse();
    response.requestId := Some(request.requestId);
    response.headers := Some(request.headers);

    var pathParameters := Split(request.relativeUrl, '/');
    if |pathParameters| < 2 {
      return Raised(IndexOutOfBounds(1));
    }
    var loanId := ParseLong(pathParameters[1]);
    if loanId.None? {
      return Raised(NumberFormat(pathParameters[1]));
    }
    if |pathParameters| < 4 {
      return Raised(IndexOutOfBounds(3));
    }
    var command := FindCommand(pathParameters[3]);
    if command.None? {
      response.requestId := Some(request.requestId);
      response.statusCode := Some(StatusNotImplemented);
      response.body := Some(NotImplementedBody(request));
      return Returned(response);
    }
    var chargeIdText := ChargeIdText(pathParameters[3]);
    var loanChargeId := ParseLong(chargeIdText);
    if loanChargeId.None? {
      return Raised(NumberFormat(chargeIdText));
    }
    var responseBody := executeLoanCharge(loanId.value, loanChargeId.value, command.value, request.body);
    response.statusCode := Some(StatusOk);
    response.body := Some(responseBody);
    return Returned(response);
  }
}
