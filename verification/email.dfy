/** `email_notifier.py`: the settings read from the environment, the
    credential guard of client setup, the basic templates' optional parts, and
    the per-recipient bookkeeping of `send_quiz_notification` — the results
    map and the delivery log. Rendering the content and sending a message are
    parameters: `generate(name)` is the `(html, text)` pair produced for a
    recipient name, `send(k, viaYagmail, email)` whether the send that becomes
    the `k`-th log entry succeeded, and `stamps(k)` that entry's timestamp. */
module EmailNotifier {
  import opened Common
  import opened Text
  import opened QuizErrors

  // ---------------------------------------------------------------------
  // Configuration

  datatype EmailConfig = EmailConfig(
    smtpServer: string,
    smtpPort: int,
    senderEmail: string,
    senderPassword: string,
    senderName: string,
    useYagmail: bool,
    useTls: bool)

  /** `os.getenv(key, default)`. */
  function Getenv(env: map<string, string>, key: string, default: string): string
  {
    if key in env then env[key] else default
  }

  /** `value.lower() == 'true'`. */
  predicate Flag(value: string)
  {
    Lower(value) == "true"
  }

  /** A flag is on exactly for the four letters of `true` in any mix of cases. */
  lemma FlagIff(value: string)
    ensures Flag(value) <==>
      |value| == 4 && LowerChar(value[0]) == 't' && LowerChar(value[1]) == 'r'
                   && LowerChar(value[2]) == 'u' && LowerChar(value[3]) == 'e'
  {
    if |value| == 4 && LowerChar(value[0]) == 't' && LowerChar(value[1]) == 'r'
                    && LowerChar(value[2]) == 'u' && LowerChar(value[3]) == 'e' {
      assert Lower(value) == "true";
    }
  }

  /** `EmailConfig.from_env()`; `parseInt` is Python's `int()` on a string,
      `None` where it raises `ValueError`. */
  function FromEnv(env: map<string, string>, parseInt: string -> Option<int>): (r: Result<EmailConfig, ExceptionClass>)
    ensures r.Failure? <==> parseInt(Getenv(env, "SMTP_PORT", "587")).None?
    ensures r.Failure? ==> r.error == ValueError
    ensures r.Success? ==> Some(r.value.smtpPort) == parseInt(Getenv(env, "SMTP_PORT", "587"))
    ensures r.Success? ==> r.value.smtpServer == (if "SMTP_SERVER" in env then env["SMTP_SERVER"] else "smtp.gmail.com")
    ensures r.Success? ==> r.value.senderEmail == (if "SENDER_EMAIL" in env then env["SENDER_EMAIL"] else "")
    ensures r.Success? ==> r.value.senderPassword == (if "SENDER_PASSWORD" in env then env["SENDER_PASSWORD"] else "")
    ensures r.Success? ==> r.value.senderName == (if "SENDER_NAME" in env then env["SENDER_NAME"] else "AI Quiz System")
    ensures r.Success? ==> r.value.useYagmail == Flag(Getenv(env, "USE_YAGMAIL", "true"))
    ensures r.Success? ==> r.value.useTls == Flag(Getenv(env, "USE_TLS", "true"))
    ensures r.Success? && "USE_YAGMAIL" !in env ==> r.value.useYagmail
    ensures r.Success? && "USE_TLS" !in env ==> r.value.useTls
  {
    assert Lower("true") == "true";
    match parseInt(Getenv(env, "SMTP_PORT", "587"))
    case None => Failure(ValueError)
    case Some(port) =>
      Success(EmailConfig(
        Getenv(env, "SMTP_SERVER", "smtp.gmail.com"),
        port,
        Getenv(env, "SENDER_EMAIL", ""),
        Getenv(env, "SENDER_PASSWORD", ""),
        Getenv(env, "SENDER_NAME", "AI Quiz System"),
        Flag(Getenv(env, "USE_YAGMAIL", "true")),
        Flag(Getenv(env, "USE_TLS", "true"))))
  }

  // ---------------------------------------------------------------------
  // The notifier and its client

  /** One delivery-log record. */
  datatype LogEntry = LogEntry(timestamp: string, recipient: string, subject: string, success: bool, quizUrl: string)

  /** The notifier's state: its configuration, whether a yagmail client has
      been built, and the delivery log. */
  datatype Notifier = Notifier(config: EmailConfig, yagClient: bool, log: seq<LogEntry>)

  /** `EmailNotifier(config)`: a given configuration is used as it is (a
      configuration object is always truthy), a missing one is read from the
      environment, which raises `ValueError` for a non-integer port. */
  function NewNotifier(config: Option<EmailConfig>, env: map<string, string>, parseInt: string -> Option<int>): (r: Result<Notifier, ExceptionClass>)
    ensures r.Success? ==> !r.value.yagClient && r.value.log == []
    ensures config.Some? ==> r.Success? && r.value.config == config.value
    ensures config.None? ==> (r.Success? <==> FromEnv(env, parseInt).Success?)
    ensures config.None? && r.Success? ==> r.value.config == FromEnv(env, parseInt).value
    ensures r.Failure? ==> r.error == ValueError
  {
    match config
    case Some(c) => Success(Notifier(c, false, []))
    case None =>
      match FromEnv(env, parseInt)
      case Success(c) => Success(Notifier(c, false, []))
      case Failure(e) => Failure(e)
  }

  /** `setup_email_client`: without both credentials nothing happens and the
      answer is `False`. `yagmailAvailable` says whether the package imported,
      `connects` whether building the yagmail client succeeds. */
  function SetupEmailClient(n: Notifier, yagmailAvailable: bool, connects: bool): (r: (bool, Notifier))
    ensures n.config.senderEmail == [] || n.config.senderPassword == [] ==> r == (false, n)
    ensures r.0 <==> n.config.senderEmail != [] && n.config.senderPassword != []
                     && !(n.config.useYagmail && yagmailAvailable && !connects)
    ensures r.0 ==> n.config.senderEmail != [] && n.config.senderPassword != []
    ensures r.1.yagClient && !n.yagClient ==> r.0 && yagmailAvailable && r.1.config.useYagmail
    ensures r.1.config.useYagmail ==> n.config.useYagmail && (r.0 ==> yagmailAvailable)
    ensures r.1.log == n.log
    ensures r.1.config == n.config.(useYagmail := r.1.config.useYagmail)
  {
    if n.config.senderEmail == [] || n.config.senderPassword == [] then (false, n)
    else if n.config.useYagmail && yagmailAvailable then
      if connects then (true, n.(yagClient := true)) else (false, n)
    else if n.config.useYagmail then (true, n.(config := n.config.(useYagmail := false)))
    else (true, n)
  }

  /** The yagmail path is taken only when it is configured and a client exists. */
  predicate ViaYagmail(n: Notifier)
  {
    n.config.useYagmail && n.yagClient
  }

  // ---------------------------------------------------------------------
  // Subject and recipient name

  /** `f"🤖 AI Knowledge Quiz - {question_count} Questions Await!"`. */
  function DefaultSubject(questionCount: int): string
  {
    "\U{1F916} AI Knowledge Quiz - " + IntToString(questionCount) + " Questions Await!"
  }

  /** Different question counts give different default subjects. */
  lemma DefaultSubjectInjective(a: int, b: int)
    requires DefaultSubject(a) == DefaultSubject(b)
    ensures a == b
  {
    var head := "\U{1F916} AI Knowledge Quiz - ";
    var x, y := DefaultSubject(a), DefaultSubject(b);
    assert x == head + IntToString(a) + " Questions Await!";
    assert y == head + IntToString(b) + " Questions Await!";
    assert x[|head|..|x| - 17] == IntToString(a);
    assert y[|head|..|y| - 17] == IntToString(b);
    IntToStringInjective(a, b);
  }

  /** A falsy subject is replaced by the default one. */
  function SubjectOrDefault(subject: Option<string>, questionCount: int): (s: string)
    ensures subject.Some? && subject.value != [] ==> s == subject.value
    ensures subject.None? || subject.value == [] ==> s == DefaultSubject(questionCount)
  {
    if subject.Some? && subject.value != [] then subject.value else DefaultSubject(questionCount)
  }

  /** `email.split('@')[0].replace('.', ' ').title()`. */
  function RecipientName(email: string): (name: string)
    ensures |name| == |BeforeFirst(email, '@')|
  {
    ReplaceCharPointwise(BeforeFirst(email, '@'), '.', ' ');
    Title(ReplaceChar(BeforeFirst(email, '@'), '.', [' ']))
  }

  /** The name, character by character: the local part with dots as spaces,
      each word starting upper-case and going on lower-case. */
  lemma RecipientNameShape(email: string, i: nat)
    requires i < |BeforeFirst(email, '@')|
    ensures var local, name := BeforeFirst(email, '@'), RecipientName(email);
      var wordStart := i == 0 || !IsLetter(local[i - 1]);
      && (local[i] == '.' ==> name[i] == ' ')
      && (!IsLetter(local[i]) && local[i] != '.' ==> name[i] == local[i])
      && (IsLetter(local[i]) ==> LowerChar(name[i]) == LowerChar(local[i]))
      && (IsLetter(local[i]) && wordStart ==> IsUpper(name[i]))
      && (IsLetter(local[i]) && !wordStart ==> IsLower(name[i]))
  {
    var local := BeforeFirst(email, '@');
    var spaced := ReplaceChar(local, '.', [' ']);
    ReplaceCharPointwise(local, '.', ' ');
    TitleShape(spaced, false, i);
    assert spaced[i] == if local[i] == '.' then ' ' else local[i];
    if i > 0 {
      assert spaced[i - 1] == if local[i - 1] == '.' then ' ' else local[i - 1];
    }
  }

  /** The name never holds an `@` or a dot. */
  lemma RecipientNameClean(email: string)
    ensures '@' !in RecipientName(email) && '.' !in RecipientName(email)
  {
    var local, name := BeforeFirst(email, '@'), RecipientName(email);
    forall i | 0 <= i < |name|
      ensures name[i] != '@' && name[i] != '.'
    {
      RecipientNameShape(email, i);
    }
  }

  // ---------------------------------------------------------------------
  // The basic templates' optional parts

  /** A truthy optional string. */
  predicate Given(o: Option<string>)
  {
    o.Some? && o.value != []
  }

  /** After "Hello": a space and the name, or nothing for an empty name. */
  function NameGreeting(name: string): (g: string)
    ensures g == [] <==> name == []
    ensures name != [] ==> g[0] == ' ' && g[1..] == name
  {
    if name != [] then " " + name else ""
  }

  const DeadlineLead: string := "\nDeadline: Please complete the quiz by "
  const EditLead: string := "\nQuiz administrators can edit this quiz at: "
  const HtmlDeadlineLead: string := "<p><strong>\U{23F0} Deadline:</strong> Please complete the quiz by "
  const HtmlEditLead: string := "<p style='font-size: 12px; color: #999;'><em>Quiz administrators can edit this quiz <a href='"
  const HtmlEditTail: string := "'>here</a></em></p>"

  function TextDeadline(deadline: Option<string>): string
  {
    if Given(deadline) then DeadlineLead + deadline.value else ""
  }

  function TextEditLink(editUrl: Option<string>): string
  {
    if Given(editUrl) then EditLead + editUrl.value else ""
  }

  function HtmlDeadline(deadline: Option<string>): string
  {
    if Given(deadline) then HtmlDeadlineLead + deadline.value + "</p>" else ""
  }

  function HtmlEditLink(editUrl: Option<string>): string
  {
    if Given(editUrl) then HtmlEditLead + editUrl.value + HtmlEditTail else ""
  }

  /** The deadline lines appear exactly when a deadline is given, and then
      carry it. */
  lemma DeadlineParts(deadline: Option<string>)
    ensures TextDeadline(deadline) != [] <==> Given(deadline)
    ensures HtmlDeadline(deadline) != [] <==> Given(deadline)
    ensures Given(deadline) ==> Contains(TextDeadline(deadline), deadline.value) && Contains(HtmlDeadline(deadline), deadline.value)
  {
    if Given(deadline) {
      var v := deadline.value;
      ContainsInfix(DeadlineLead, v, []);
      assert DeadlineLead + v + [] == TextDeadline(deadline);
      ContainsInfix(HtmlDeadlineLead, v, "</p>");
    }
  }

  /** The edit-link lines appear exactly when an edit link is given, and then
      carry it. */
  lemma EditLinkParts(editUrl: Option<string>)
    ensures TextEditLink(editUrl) != [] <==> Given(editUrl)
    ensures HtmlEditLink(editUrl) != [] <==> Given(editUrl)
    ensures Given(editUrl) ==> Contains(TextEditLink(editUrl), editUrl.value) && Contains(HtmlEditLink(editUrl), editUrl.value)
  {
    if Given(editUrl) {
      var v := editUrl.value;
      ContainsInfix(EditLead, v, []);
      assert EditLead + v + [] == TextEditLink(editUrl);
      ContainsInfix(HtmlEditLead, v, HtmlEditTail);
    }
  }

  const TextBanner: string := "\nAI KNOWLEDGE QUIZ INVITATION\n============================\n\n"
  const TextInvite: string := "\n\nYou've been invited to take an AI Knowledge Quiz!\n\nQuiz Details:\n- Questions: "
  const TextScoring: string := " multiple-choice questions\n- Scoring: "
  const TextPoints: string := " points per correct answer\n\n"
  const TextFooter: string := "\n\nGood luck!\n\n---\nGenerated on "
  const TextEnd: string := "\n        "

  /** The greeting line: `Hello`, the optional name, a comma. */
  function Greeting(name: string): string
  {
    "Hello" + NameGreeting(name) + ","
  }

  /** The quiz details between the greeting and the link. */
  function TextDetails(questionCount: int, pointsPerQuestion: int): string
  {
    TextInvite + IntToString(questionCount) + TextScoring + IntToString(pointsPerQuestion) + TextPoints
  }

  function TextLink(quizUrl: string): string
  {
    "Quiz URL: " + quizUrl
  }

  /** `_get_text_template_basic`, whole. */
  function TextTemplateBasic(name: string, quizUrl: string, questionCount: int, pointsPerQuestion: int,
                             deadline: Option<string>, editUrl: Option<string>, currentDate: string): string
  {
    TextBanner + Greeting(name) + TextDetails(questionCount, pointsPerQuestion) + TextLink(quizUrl)
      + TextDeadline(deadline) + (TextFooter + currentDate) + TextEditLink(editUrl) + TextEnd
  }

  /** The plain-text invitation greets the recipient by name and carries the
      quiz link, and the deadline and edit link when they are given. */
  lemma TextTemplateMentions(name: string, quizUrl: string, questionCount: int, pointsPerQuestion: int,
                             deadline: Option<string>, editUrl: Option<string>, currentDate: string)
    ensures var t := TextTemplateBasic(name, quizUrl, questionCount, pointsPerQuestion, deadline, editUrl, currentDate);
      && Contains(t, Greeting(name))
      && Contains(t, TextLink(quizUrl))
      && (Given(deadline) ==> Contains(t, deadline.value))
      && (Given(editUrl) ==> Contains(t, editUrl.value))
  {
    var middle := TextDetails(questionCount, pointsPerQuestion);
    var link := TextLink(quizUrl);
    var dl, footer, ed := TextDeadline(deadline), TextFooter + currentDate, TextEditLink(editUrl);
    DeadlineParts(deadline);
    EditLinkParts(editUrl);
    TemplateParts(TextBanner, Greeting(name), middle, link, dl, footer, ed, TextEnd);
    if Given(deadline) {
      ContainsWithin(TextBanner + Greeting(name) + middle + link, dl, footer + ed + TextEnd, deadline.value);
    }
    if Given(editUrl) {
      ContainsWithin(TextBanner + Greeting(name) + middle + link + dl + footer, ed, TextEnd, editUrl.value);
    }
  }

  /** The text template cut around each part it is asked about. */
  lemma TemplateParts(banner: string, greeting: string, middle: string, link: string, dl: string, footer: string,
                      ed: string, end: string)
    ensures var t := banner + greeting + middle + link + dl + footer + ed + end;
      && Contains(t, greeting)
      && Contains(t, link)
      && t == (banner + greeting + middle + link) + dl + (footer + ed + end)
      && t == (banner + greeting + middle + link + dl + footer) + ed + end
  {
    var t := banner + greeting + middle + link + dl + footer + ed + end;
    assert t == banner + greeting + (middle + link + dl + footer + ed + end);
    ContainsInfix(banner, greeting, middle + link + dl + footer + ed + end);
    assert t == (banner + greeting + middle) + link + (dl + footer + ed + end);
    ContainsInfix(banner + greeting + middle, link, dl + footer + ed + end);
  }

  // ---------------------------------------------------------------------
  // send_quiz_notification

  /** Whether content was produced for a recipient: both parts non-empty. */
  predicate HasContent(generate: string -> (string, string), email: string)
  {
    generate(RecipientName(email)).0 != [] && generate(RecipientName(email)).1 != []
  }

  function ContentTest(generate: string -> (string, string)): string -> bool
  {
    (email: string) => HasContent(generate, email)
  }

  /** The recipients a send was attempted for, in order. */
  function Attempted(recipients: seq<string>, generate: string -> (string, string)): seq<string>
  {
    Filter(recipients, ContentTest(generate))
  }

  /** What the loop records for recipient `j` of the list: `False` without
      content, otherwise the outcome of the send whose log entry follows
      those of the attempted recipients before it. */
  function Outcome(n: Notifier, recipients: seq<string>, generate: string -> (string, string),
                   send: (nat, bool, string) -> bool, j: nat): bool
    requires j < |recipients|
  {
    HasContent(generate, recipients[j])
    && send(|n.log| + |Attempted(recipients[..j], generate)|, ViaYagmail(n), recipients[j])
  }

  /** No later log entry is for the same recipient as entry `i`. */
  predicate LastFor(log: seq<LogEntry>, i: nat)
    requires i < |log|
  {
    forall j :: i < j < |log| ==> log[j].recipient != log[i].recipient
  }

  /** The loop over the recipients from `results` and the notifier so far. */
  function SendLoop(n: Notifier, recipients: seq<string>, quizUrl: string, subject: string,
                    generate: string -> (string, string), send: (nat, bool, string) -> bool, stamps: nat -> string,
                    results: map<string, bool>): (r: (map<string, bool>, Notifier))
    ensures r.1.config == n.config && r.1.yagClient == n.yagClient
    decreases |recipients|
  {
    if recipients == [] then (results, n)
    else
      var e := recipients[0];
      if !HasContent(generate, e) then
        SendLoop(n, recipients[1..], quizUrl, subject, generate, send, stamps, results[e := false])
      else
        var ok := send(|n.log|, ViaYagmail(n), e);
        var n' := n.(log := n.log + [LogEntry(stamps(|n.log|), e, subject, ok, quizUrl)]);
        SendLoop(n', recipients[1..], quizUrl, subject, generate, send, stamps, results[e := ok])
  }

  /** Every recipient gets an entry in the results; entries for anyone else
      are kept as they were. */
  lemma {:induction false} SendLoopKeys(n: Notifier, recipients: seq<string>, quizUrl: string, subject: string,
                                        generate: string -> (string, string), send: (nat, bool, string) -> bool,
                                        stamps: nat -> string, results: map<string, bool>)
    ensures var r := SendLoop(n, recipients, quizUrl, subject, generate, send, stamps, results).0;
      && (forall e :: e in r <==> e in results || e in recipients)
      && (forall e :: e in r && e !in recipients ==> r[e] == results[e])
    decreases |recipients|
  {
    if recipients != [] {
      var e := recipients[0];
      var ok := HasContent(generate, e) && send(|n.log|, ViaYagmail(n), e);
      var n' := if HasContent(generate, e) then n.(log := n.log + [LogEntry(stamps(|n.log|), e, subject, ok, quizUrl)]) else n;
      assert SendLoop(n, recipients, quizUrl, subject, generate, send, stamps, results)
          == SendLoop(n', recipients[1..], quizUrl, subject, generate, send, stamps, results[e := ok]);
      SendLoopKeys(n', recipients[1..], quizUrl, subject, generate, send, stamps, results[e := ok]);
      assert forall x :: x in recipients <==> x == e || x in recipients[1..];
    }
  }

  /** Recipient `j` of the list is recipient `j - 1` of the rest, run on the
      notifier after the first recipient's turn. */
  lemma OutcomeStep(n: Notifier, n': Notifier, recipients: seq<string>, generate: string -> (string, string),
                    send: (nat, bool, string) -> bool, j: nat)
    requires 1 <= j < |recipients|
    requires ViaYagmail(n') == ViaYagmail(n)
    requires |n'.log| == |n.log| + if HasContent(generate, recipients[0]) then 1 else 0
    ensures Outcome(n, recipients, generate, send, j) == Outcome(n', recipients[1..], generate, send, j - 1)
  {
    assert recipients[j] == recipients[1..][j - 1];
    assert recipients[..j][1..] == recipients[1..][..j - 1];
    AttemptedStep(recipients[..j], generate);
  }

  /** A recipient's entry in the results is what its last occurrence in the
      list recorded: `False` without content, otherwise the outcome of that
      occurrence's send. */
  lemma {:induction false} SendLoopResults(n: Notifier, recipients: seq<string>, quizUrl: string, subject: string,
                                           generate: string -> (string, string), send: (nat, bool, string) -> bool,
                                           stamps: nat -> string, results: map<string, bool>)
    ensures var r := SendLoop(n, recipients, quizUrl, subject, generate, send, stamps, results).0;
      forall j :: 0 <= j < |recipients| && recipients[j] !in recipients[j + 1..] ==>
        recipients[j] in r && r[recipients[j]] == Outcome(n, recipients, generate, send, j)
    decreases |recipients|
  {
    if recipients != [] {
      var e := recipients[0];
      var ok := HasContent(generate, e) && send(|n.log|, ViaYagmail(n), e);
      var n' := if HasContent(generate, e) then n.(log := n.log + [LogEntry(stamps(|n.log|), e, subject, ok, quizUrl)]) else n;
      var r := SendLoop(n', recipients[1..], quizUrl, subject, generate, send, stamps, results[e := ok]).0;
      assert SendLoop(n, recipients, quizUrl, subject, generate, send, stamps, results).0 == r;
      SendLoopResults(n', recipients[1..], quizUrl, subject, generate, send, stamps, results[e := ok]);
      SendLoopKeys(n', recipients[1..], quizUrl, subject, generate, send, stamps, results[e := ok]);
      forall j | 0 <= j < |recipients| && recipients[j] !in recipients[j + 1..]
        ensures recipients[j] in r && r[recipients[j]] == Outcome(n, recipients, generate, send, j)
      {
        if j == 0 {
          assert recipients[..0] == [];
        } else {
          assert recipients[j + 1..] == recipients[1..][j..];
          assert recipients[j] == recipients[1..][j - 1];
          OutcomeStep(n, n', recipients, generate, send, j);
        }
      }
    }
  }

  /** One step of the filter behind `Attempted`. */
  lemma AttemptedStep(recipients: seq<string>, generate: string -> (string, string))
    requires recipients != []
    ensures Attempted(recipients, generate)
         == (if HasContent(generate, recipients[0]) then [recipients[0]] else []) + Attempted(recipients[1..], generate)
  {
  }

  /** The entries a run appends for the recipients in `sent`, the first at
      log position `base`. */
  function Entries(base: nat, sent: seq<string>, quizUrl: string, subject: string, via: bool,
                   send: (nat, bool, string) -> bool, stamps: nat -> string): (r: seq<LogEntry>)
    ensures |r| == |sent|
    decreases |sent|
  {
    if sent == [] then []
    else [LogEntry(stamps(base), sent[0], subject, send(base, via, sent[0]), quizUrl)]
         + Entries(base + 1, sent[1..], quizUrl, subject, via, send, stamps)
  }

  /** Entry `i` of the appended block records recipient `i` of `sent` with
      the stamp of its log position. */
  lemma {:induction false} EntriesAt(base: nat, sent: seq<string>, quizUrl: string, subject: string, via: bool,
                                     send: (nat, bool, string) -> bool, stamps: nat -> string, i: nat)
    requires i < |sent|
    ensures Entries(base, sent, quizUrl, subject, via, send, stamps)[i]
         == LogEntry(stamps(base + i), sent[i], subject, send(base + i, via, sent[i]), quizUrl)
    decreases i
  {
    if i > 0 {
      EntriesAt(base + 1, sent[1..], quizUrl, subject, via, send, stamps, i - 1);
    }
  }

  /** The log grows by exactly one entry per recipient a send was attempted
      for, in order, each recording the recipient, subject, link and outcome. */
  lemma {:induction false} SendLoopLog(n: Notifier, recipients: seq<string>, quizUrl: string, subject: string,
                                       generate: string -> (string, string), send: (nat, bool, string) -> bool,
                                       stamps: nat -> string, results: map<string, bool>)
    ensures SendLoop(n, recipients, quizUrl, subject, generate, send, stamps, results).1.log
         == n.log + Entries(|n.log|, Attempted(recipients, generate), quizUrl, subject, ViaYagmail(n), send, stamps)
    decreases |recipients|
  {
    if recipients != [] {
      var e := recipients[0];
      var rest := Attempted(recipients[1..], generate);
      var via := ViaYagmail(n);
      AttemptedStep(recipients, generate);
      if HasContent(generate, e) {
        var entry := LogEntry(stamps(|n.log|), e, subject, send(|n.log|, via, e), quizUrl);
        var n' := n.(log := n.log + [entry]);
        var next := SendLoop(n', recipients[1..], quizUrl, subject, generate, send, stamps, results[e := send(|n.log|, via, e)]);
        assert SendLoop(n, recipients, quizUrl, subject, generate, send, stamps, results) == next;
        SendLoopLog(n', recipients[1..], quizUrl, subject, generate, send, stamps, results[e := send(|n.log|, via, e)]);
        assert |n'.log| == |n.log| + 1 && ViaYagmail(n') == via;
        EntriesCons(|n.log|, e, rest, quizUrl, subject, via, send, stamps);
        AppendOne(n.log, entry, Entries(|n.log| + 1, rest, quizUrl, subject, via, send, stamps), next.1.log);
      } else {
        var next := SendLoop(n, recipients[1..], quizUrl, subject, generate, send, stamps, results[e := false]);
        assert SendLoop(n, recipients, quizUrl, subject, generate, send, stamps, results) == next;
        SendLoopLog(n, recipients[1..], quizUrl, subject, generate, send, stamps, results[e := false]);
        assert Attempted(recipients, generate) == rest;
      }
    }
  }

  /** One more recipient in front adds its entry in front. */
  lemma EntriesCons(base: nat, e: string, rest: seq<string>, quizUrl: string, subject: string, via: bool,
                    send: (nat, bool, string) -> bool, stamps: nat -> string)
    ensures Entries(base, [e] + rest, quizUrl, subject, via, send, stamps)
         == [LogEntry(stamps(base), e, subject, send(base, via, e), quizUrl)] + Entries(base + 1, rest, quizUrl, subject, via, send, stamps)
  {
    assert ([e] + rest)[1..] == rest;
  }

  /** Appending one element and then a block is appending both at once. */
  lemma AppendOne<T>(prefix: seq<T>, x: T, later: seq<T>, all: seq<T>)
    requires all == (prefix + [x]) + later
    ensures all == prefix + ([x] + later)
  {
  }

  /** `send_quiz_notification`: nothing happens without recipients or without
      a quiz link; otherwise every recipient gets an entry. */
  function SendQuizNotification(n: Notifier, recipients: seq<string>, quizUrl: string, subject: Option<string>,
                                questionCount: int, generate: string -> (string, string),
                                send: (nat, bool, string) -> bool, stamps: nat -> string): (r: (map<string, bool>, Notifier))
    ensures recipients == [] || quizUrl == [] ==> r == (map[], n)
    ensures recipients != [] && quizUrl != [] ==> forall e :: e in r.0 <==> e in recipients
    ensures recipients != [] && quizUrl != [] ==>
      forall j :: 0 <= j < |recipients| && recipients[j] !in recipients[j + 1..] ==>
        r.0[recipients[j]] == Outcome(n, recipients, generate, send, j)
    ensures r.1.config == n.config && r.1.yagClient == n.yagClient
    ensures |n.log| <= |r.1.log| && r.1.log[..|n.log|] == n.log
  {
    if recipients == [] || quizUrl == [] then (map[], n)
    else
      var s := SubjectOrDefault(subject, questionCount);
      SendLoopKeys(n, recipients, quizUrl, s, generate, send, stamps, map[]);
      SendLoopResults(n, recipients, quizUrl, s, generate, send, stamps, map[]);
      SendLoopLog(n, recipients, quizUrl, s, generate, send, stamps, map[]);
      SendLoop(n, recipients, quizUrl, s, generate, send, stamps, map[])
  }

  /** A recipient the loop attempts again later has a later log entry. */
  lemma AttemptedLater(n: Notifier, recipients: seq<string>, quizUrl: string, subject: string,
                       generate: string -> (string, string), send: (nat, bool, string) -> bool,
                       stamps: nat -> string, results: map<string, bool>, e: string)
    requires e in recipients && HasContent(generate, e)
    ensures var log := SendLoop(n, recipients, quizUrl, subject, generate, send, stamps, results).1.log;
      exists j :: |n.log| <= j < |log| && log[j].recipient == e
  {
    var sent := Attempted(recipients, generate);
    SendLoopLog(n, recipients, quizUrl, subject, generate, send, stamps, results);
    FilterMembership(recipients, ContentTest(generate), e);
    var k :| 0 <= k < |sent| && sent[k] == e;
    EntriesAt(|n.log|, sent, quizUrl, subject, ViaYagmail(n), send, stamps, k);
    var log := SendLoop(n, recipients, quizUrl, subject, generate, send, stamps, results).1.log;
    assert log[|n.log| + k].recipient == e;
  }

  /** The last log entry the loop writes for a recipient holds the outcome
      the results keep for it. */
  lemma {:induction false} SendLoopLastEntry(n: Notifier, recipients: seq<string>, quizUrl: string, subject: string,
                                             generate: string -> (string, string), send: (nat, bool, string) -> bool,
                                             stamps: nat -> string, results: map<string, bool>, i: nat)
    requires var log := SendLoop(n, recipients, quizUrl, subject, generate, send, stamps, results).1.log;
      |n.log| <= i < |log| && LastFor(log, i)
    ensures var r := SendLoop(n, recipients, quizUrl, subject, generate, send, stamps, results);
      r.1.log[i].recipient in r.0 && r.0[r.1.log[i].recipient] == r.1.log[i].success
    decreases |recipients|
  {
    var e := recipients[0];
    var r := SendLoop(n, recipients, quizUrl, subject, generate, send, stamps, results);
    if HasContent(generate, e) {
      var ok := send(|n.log|, ViaYagmail(n), e);
      var n' := n.(log := n.log + [LogEntry(stamps(|n.log|), e, subject, ok, quizUrl)]);
      assert r == SendLoop(n', recipients[1..], quizUrl, subject, generate, send, stamps, results[e := ok]);
      if i == |n.log| {
        SendLoopLog(n', recipients[1..], quizUrl, subject, generate, send, stamps, results[e := ok]);
        SendLoopKeys(n', recipients[1..], quizUrl, subject, generate, send, stamps, results[e := ok]);
        assert r.1.log[i] == LogEntry(stamps(|n.log|), e, subject, ok, quizUrl);
        if e in recipients[1..] {
          AttemptedLater(n', recipients[1..], quizUrl, subject, generate, send, stamps, results[e := ok], e);
          assert false;
        }
      } else {
        SendLoopLastEntry(n', recipients[1..], quizUrl, subject, generate, send, stamps, results[e := ok], i);
      }
    } else {
      assert r == SendLoop(n, recipients[1..], quizUrl, subject, generate, send, stamps, results[e := false]);
      SendLoopLastEntry(n, recipients[1..], quizUrl, subject, generate, send, stamps, results[e := false], i);
    }
  }

  /** Each new log entry is for a recipient in the results, under the
      subject actually used and the quiz link, one per attempted recipient. */
  lemma NotificationLogEntries(n: Notifier, recipients: seq<string>, quizUrl: string, subject: Option<string>,
                               questionCount: int, generate: string -> (string, string),
                               send: (nat, bool, string) -> bool, stamps: nat -> string)
    requires recipients != [] && quizUrl != []
    ensures var r := SendQuizNotification(n, recipients, quizUrl, subject, questionCount, generate, send, stamps);
      && |r.1.log| == |n.log| + |Attempted(recipients, generate)|
      && (forall i :: |n.log| <= i < |r.1.log| ==>
           && r.1.log[i].recipient in r.0
           && r.1.log[i].subject == SubjectOrDefault(subject, questionCount)
           && r.1.log[i].quizUrl == quizUrl)
  {
    var s := SubjectOrDefault(subject, questionCount);
    SendLoopLog(n, recipients, quizUrl, s, generate, send, stamps, map[]);
    SendLoopKeys(n, recipients, quizUrl, s, generate, send, stamps, map[]);
    var r := SendQuizNotification(n, recipients, quizUrl, subject, questionCount, generate, send, stamps);
    var sent := Attempted(recipients, generate);
    var added := Entries(|n.log|, sent, quizUrl, s, ViaYagmail(n), send, stamps);
    forall i | |n.log| <= i < |r.1.log|
      ensures r.1.log[i].recipient in r.0
      ensures r.1.log[i].subject == s && r.1.log[i].quizUrl == quizUrl
    {
      var k := i - |n.log|;
      assert r.1.log[i] == added[k];
      EntriesAt(|n.log|, sent, quizUrl, s, ViaYagmail(n), send, stamps, k);
      FilterMembership(recipients, ContentTest(generate), sent[k]);
    }
  }

  /** The log and the results agree: the last new log entry for a recipient
      records the outcome the results give it. */
  lemma NotificationLogMatchesResults(n: Notifier, recipients: seq<string>, quizUrl: string, subject: Option<string>,
                                      questionCount: int, generate: string -> (string, string),
                                      send: (nat, bool, string) -> bool, stamps: nat -> string)
    requires recipients != [] && quizUrl != []
    ensures var r := SendQuizNotification(n, recipients, quizUrl, subject, questionCount, generate, send, stamps);
      forall i :: |n.log| <= i < |r.1.log| && LastFor(r.1.log, i) ==>
        r.1.log[i].recipient in r.0 && r.0[r.1.log[i].recipient] == r.1.log[i].success
  {
    var s := SubjectOrDefault(subject, questionCount);
    var r := SendQuizNotification(n, recipients, quizUrl, subject, questionCount, generate, send, stamps);
    forall i | |n.log| <= i < |r.1.log| && LastFor(r.1.log, i)
      ensures r.1.log[i].recipient in r.0 && r.0[r.1.log[i].recipient] == r.1.log[i].success
    {
      SendLoopLastEntry(n, recipients, quizUrl, s, generate, send, stamps, map[], i);
    }
  }
}
