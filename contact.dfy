/**
 * The contact endpoint (`POST /api/contact`): it checks that an e-mail
 * address and a message are present, checks the address against a simple
 * shape, logs a shortened copy of the message, optionally relays it by mail,
 * and answers 200, 400 or 500.
 */
module Contact {
  import opened Js

  /** The request body as the handler sees it: not JSON at all, the JSON
      value `null` (whose destructuring throws), or an object with the three
      fields. A JSON scalar or array destructures to three `undefined`
      fields, written `Json(None, Undefined, Undefined)`. */
  datatype Body = NotJson | JsonNull | Json(name: Option<string>, email: RawValue, message: RawValue)

  // ---------------------------------------------------------------------
  // The e-mail shape

  /** `[^\s@]+`: a non-empty run without whitespace and without `@`. */
  predicate Atom(s: string) {
    |s| > 0 && forall i :: 0 <= i < |s| ==> !IsWs(s[i]) && s[i] != '@'
  }

  /** The string is an atom, `@` at `a`, an atom, `.` at `b`, an atom. */
  predicate EmailParts(s: string, a: int, b: int) {
    && 0 < a && a + 1 < b && b + 1 < |s| && s[a] == '@' && s[b] == '.'
    && Atom(s[..a]) && Atom(s[a + 1..b]) && Atom(s[b + 1..])
  }

  /** `/^[^\s@]+@[^\s@]+\.[^\s@]+$/.test(s)`. */
  predicate MatchesEmailRegex(s: string) {
    exists a, b | 0 <= a < |s| && 0 <= b < |s| :: EmailParts(s, a, b)
  }

  /** The only `@` of `s` is at `a`, which is not the first position. */
  predicate SoleAt(s: string, a: int) {
    0 < a < |s| && s[a] == '@' && forall i :: 0 <= i < |s| && s[i] == '@' ==> i == a
  }

  /** A dot after the `@` at `a` with text on both of its sides. */
  predicate DomainDot(s: string, a: int, k: int) {
    0 <= a && a + 1 < k < |s| - 1 && s[k] == '.'
  }

  /** The shape in plain terms: no whitespace, exactly one `@` and not at the
      start, and a dot in the domain part with text on both of its sides. */
  predicate EmailShape(s: string) {
    && (forall i :: 0 <= i < |s| ==> !IsWs(s[i]))
    && exists a, k | 0 <= a < |s| && 0 <= k < |s| :: SoleAt(s, a) && DomainDot(s, a, k)
  }

  lemma PartsGiveShape(s: string, a: int, b: int)
    requires EmailParts(s, a, b)
    ensures SoleAt(s, a) && DomainDot(s, a, b)
    ensures forall i :: 0 <= i < |s| ==> !IsWs(s[i])
  {
    forall i | 0 <= i < |s|
      ensures !IsWs(s[i]) && (s[i] == '@' ==> i == a)
    {
      if i < a {
        assert s[..a][i] == s[i];
      } else if a < i < b {
        assert s[a + 1..b][i - a - 1] == s[i];
      } else if b < i {
        assert s[b + 1..][i - b - 1] == s[i];
      }
    }
  }

  lemma ShapeGivesParts(s: string, a: int, k: int)
    requires forall i :: 0 <= i < |s| ==> !IsWs(s[i])
    requires SoleAt(s, a) && DomainDot(s, a, k)
    ensures EmailParts(s, a, k)
  {
    assert Atom(s[..a]);
    assert Atom(s[a + 1..k]);
    assert Atom(s[k + 1..]);
  }

  /** The regular expression accepts exactly the strings of that shape. */
  lemma EmailRegexIff(s: string)
    ensures MatchesEmailRegex(s) <==> EmailShape(s)
  {
    if MatchesEmailRegex(s) {
      var a, b :| 0 <= a < |s| && 0 <= b < |s| && EmailParts(s, a, b);
      PartsGiveShape(s, a, b);
    }
    if EmailShape(s) {
      var a, k :| 0 <= a < |s| && 0 <= k < |s| && SoleAt(s, a) && DomainDot(s, a, k);
      ShapeGivesParts(s, a, k);
    }
  }

  /** Two addresses the check accepts and three it refuses. */
  lemma EmailExamples()
    ensures MatchesEmailRegex("ab@c.de")
    ensures MatchesEmailRegex("a.b@c.d.e")
    ensures !MatchesEmailRegex("a@b@c.d")
    ensures !MatchesEmailRegex("a@bc.")
    ensures !MatchesEmailRegex("a b@c.d")
  {
    var good := "ab@c.de";
    assert good[..2] == "ab" && good[3..4] == "c" && good[5..] == "de";
    assert EmailParts(good, 2, 4);
    var dotted := "a.b@c.d.e";
    assert dotted[..3] == "a.b" && dotted[4..5] == "c" && dotted[6..] == "d.e";
    assert EmailParts(dotted, 3, 5);
    EmailRegexIff("a@b@c.d");
    assert "a@b@c.d"[1] == '@' && "a@b@c.d"[3] == '@';
    EmailRegexIff("a@bc.");
    EmailRegexIff("a b@c.d");
    assert "a b@c.d"[1] == ' ';
  }

  // ---------------------------------------------------------------------
  // Logging

  const LogLimit: nat := 100

  /** `message.substring(0, 100) + (message.length > 100 ? "..." : "")`. */
  function LogMessage(m: string): (r: string)
    ensures |m| <= LogLimit ==> r == m
    ensures |m| > LogLimit ==> |r| == LogLimit + 3 && r[..LogLimit] == m[..LogLimit] && r[LogLimit..] == "..."
  {
    if |m| > LogLimit then m[..LogLimit] + "..." else m
  }

  /** Logging a logged message changes nothing more: the shortened form of a
      long message is already its own shortened form. */
  lemma LogMessageIdempotent(m: string)
    ensures LogMessage(LogMessage(m)) == LogMessage(m)
  {
    if |m| > LogLimit {
      var r := LogMessage(m);
      assert r[..LogLimit] + "..." == r;
    }
  }

  /** `name || fallback`: a missing or empty name is replaced. */
  function NameOr(name: Option<string>, fallback: string): (r: string)
    ensures name.Some? && name.value != "" ==> r == name.value
    ensures name.None? || name.value == "" ==> r == fallback
  {
    if name.Some? && name.value != "" then name.value else fallback
  }

  const Anonymous := "\U{C775}\U{BA85}"

  /** The mail subject, `[cherrycake.me] <name>님의 문의`, anonymous when
      the name is missing. */
  function Subject(name: Option<string>): string {
    "[cherrycake.me] " + NameOr(name, Anonymous) + "\U{B2D8}\U{C758} \U{BB38}\U{C758}"
  }

  /** The subject always starts with the site tag and always names someone. */
  lemma SubjectNamesSender(name: Option<string>)
    ensures |Subject(name)| > 16 && Subject(name)[..16] == "[cherrycake.me] "
    ensures name.Some? && name.value != "" ==> Subject(name)[16..16 + |name.value|] == name.value
    ensures name.None? || name.value == "" ==> Subject(name)[16..18] == Anonymous
  {
  }

  /** The record written to the log. */
  datatype LogEntry = LogEntry(name: string, email: string, message: string)

  // ---------------------------------------------------------------------
  // The handler

  datatype Outcome =
    | MissingFields               // 400: e-mail and message are required
    | InvalidEmail                // 400: not a well-formed address
    | Accepted(log: LogEntry, mailed: bool)  // 200: success
    | ServerError                 // 500: anything thrown in the outer block

  function Status(o: Outcome): int {
    match o
    case MissingFields => 400
    case InvalidEmail => 400
    case Accepted(_, _) => 200
    case ServerError => 500
  }

  /** `POST`. Whether SMTP is configured and whether sending succeeds are
      parameters; a failed send is caught and only logged. Only a string
      address is tested against the pattern: the `String` form of other JSON
      values is not modelled, and a non-string address is refused. A truthy
      non-string message makes `substring` throw. */
  function Handle(body: Body, smtpConfigured: bool, sendSucceeds: bool): Outcome {
    if !body.Json? then ServerError
    else if !Truthy(body.email) || !Truthy(body.message) then MissingFields
    else if !(body.email.Str? && MatchesEmailRegex(body.email.s)) then InvalidEmail
    else if !body.message.Str? then ServerError
    else Accepted(LogEntry(NameOr(body.name, Anonymous), body.email.s, LogMessage(body.message.s)),
                  smtpConfigured && sendSucceeds)
  }

  /** The answer in each case: 500 when the body cannot be read; 400 for a
      missing field, decided before the address is looked at; 400 for an
      address of the wrong shape; 200 for a well-formed request with a text
      message; and never anything else. */
  lemma HandleSpec(body: Body, smtp: bool, sent: bool)
    ensures Status(Handle(body, smtp, sent)) in {200, 400, 500}
    ensures !body.Json? ==> Status(Handle(body, smtp, sent)) == 500
    ensures body.Json? && (!Truthy(body.email) || !Truthy(body.message)) ==> Handle(body, smtp, sent) == MissingFields
    ensures Status(Handle(body, smtp, sent)) == 200 <==>
              && body.Json? && body.email.Str? && body.message.Str? && body.message.s != ""
              && EmailShape(body.email.s)
    ensures Handle(body, smtp, sent).InvalidEmail? <==>
              && body.Json? && Truthy(body.email) && Truthy(body.message)
              && !(body.email.Str? && EmailShape(body.email.s))
  {
    if body.Json? && body.email.Str? {
      EmailRegexIff(body.email.s);
    }
  }

  /** The user gets the same answer whether or not mail is configured and
      whether or not it goes out; only the relay itself differs, and a mail
      is sent exactly for accepted requests when the relay is configured and
      sending succeeds. */
  lemma MailDoesNotChangeAnswer(body: Body, smtp1: bool, sent1: bool, smtp2: bool, sent2: bool)
    ensures Status(Handle(body, smtp1, sent1)) == Status(Handle(body, smtp2, sent2))
    ensures Handle(body, smtp1, sent1).Accepted? ==>
              && Handle(body, smtp2, sent2).Accepted?
              && Handle(body, smtp1, sent1).log == Handle(body, smtp2, sent2).log
              && (Handle(body, smtp1, sent1).mailed <==> smtp1 && sent1)
  {
  }

  /** An accepted request logs the address as given, the sender's name or
      the anonymous placeholder, and the message cut to 100 characters with
      an ellipsis exactly when it was longer. */
  lemma AcceptedLog(body: Body, smtp: bool, sent: bool)
    requires Handle(body, smtp, sent).Accepted?
    ensures body.Json? && body.email.Str? && body.message.Str?
    ensures Handle(body, smtp, sent).log.email == body.email.s
    ensures Handle(body, smtp, sent).log.name != ""
    ensures |body.message.s| <= 100 ==> Handle(body, smtp, sent).log.message == body.message.s
    ensures |body.message.s| > 100 ==> |Handle(body, smtp, sent).log.message| == 103
  {
  }
}
