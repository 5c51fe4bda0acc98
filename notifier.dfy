/** Notification channels, their fan-out composition and the factory that builds them from the
    configuration (`notifier.py`). */
module Notifiers {
  import opened Wrappers
  import opened Strings
  import opened Models

  // ---------------------------------------------------------------------------
  // Configuration values

  /** A configuration value as the YAML loader yields it. */
  datatype Value = Str(s: string) | Number(n: int) | Flag(b: bool) | Null

  /** Python truthiness of a configuration value. */
  predicate Truthy(v: Value) {
    match v
    case Str(s) => s != ""
    case Number(n) => n != 0
    case Flag(b) => b
    case Null => false
  }

  /** The loaded configuration map. */
  type Config = map<string, Value>

  /** `config.get(key, default)`. */
  function Get(config: Config, key: string, default: Value): Value {
    if key in config then config[key] else default
  }

  // ---------------------------------------------------------------------------
  // Channels

  /** The settings `EmailNotifier` is built with. */
  datatype EmailSettings = EmailSettings(
    smtpServer: Value,
    smtpPort: Value,
    username: Value,
    password: Value,
    fromEmail: Value,
    toEmail: Value)

  /** A notifier: the Bark push channel, the SMTP channel, the console, or a fan-out over children. */
  datatype Notifier = Bark(token: Value) | Email(settings: EmailSettings) | Console | Multi(children: seq<Notifier>)

  /** The arguments of `send(title, content, course)`. */
  datatype Message = Message(title: string, content: string, course: Option<Course>)

  /** Whether one transport attempt (the Bark POST, the SMTP session) completed. `false` also stands for
      an exception, which the channel catches and turns into `False`. */
  type Transport = (Notifier, Message) -> bool

  /** `n.send(...)`: the result a notifier reports. */
  function Deliver(n: Notifier, msg: Message, transport: Transport): bool
    decreases n
  {
    match n
    case Bark(_) => transport(n, msg)
    case Email(_) => transport(n, msg)
    case Console => true
    case Multi(cs) => exists i | 0 <= i < |cs| :: Deliver(cs[i], msg, transport)
  }

  /** `ConsoleNotifier.send` reports success whatever the transport does. */
  lemma ConsoleAlwaysDelivers(msg: Message, transport: Transport)
    ensures Deliver(Console, msg, transport)
  {}

  /** The `success_count` of `MultiNotifier.send` over the children `cs`. */
  function Successes(cs: seq<Notifier>, msg: Message, transport: Transport): nat {
    if cs == [] then 0
    else Successes(cs[..|cs| - 1], msg, transport) + (if Deliver(cs[|cs| - 1], msg, transport) then 1 else 0)
  }

  lemma {:induction false} SuccessesPositive(cs: seq<Notifier>, msg: Message, transport: Transport)
    ensures Successes(cs, msg, transport) > 0 <==> exists i | 0 <= i < |cs| :: Deliver(cs[i], msg, transport)
    ensures Successes(cs, msg, transport) <= |cs|
  {
    if cs != [] {
      var init := cs[..|cs| - 1];
      SuccessesPositive(init, msg, transport);
      if exists i | 0 <= i < |init| :: Deliver(init[i], msg, transport) {
        var i :| 0 <= i < |init| && Deliver(init[i], msg, transport);
        assert cs[i] == init[i];
      }
      if exists i | 0 <= i < |cs| :: Deliver(cs[i], msg, transport) {
        var i :| 0 <= i < |cs| && Deliver(cs[i], msg, transport);
        if i < |init| {
          assert cs[i] == init[i];
        }
      }
    }
  }

  /** `MultiNotifier`: a list of children that `send` fans out to. */
  class MultiNotifier {
    var notifiers: seq<Notifier>

    constructor()
      ensures notifiers == []
    {
      notifiers := [];
    }

    /** `add_notifier`: append a child after the existing ones. */
    method AddNotifier(n: Notifier)
      modifies this
      ensures notifiers == old(notifiers) + [n]
    {
      notifiers := notifiers + [n];
    }

    /** `send`: every child is tried once, in order, whatever the earlier ones reported; the result is
        true iff at least one child delivered. */
    method Send(msg: Message, transport: Transport) returns (ok: bool, ghost attempted: seq<Notifier>)
      ensures ok <==> exists i | 0 <= i < |notifiers| :: Deliver(notifiers[i], msg, transport)
      ensures ok == Deliver(Multi(notifiers), msg, transport)
      ensures notifiers == [] ==> !ok
      ensures attempted == notifiers
    {
      var successCount := 0;
      attempted := [];
      for i := 0 to |notifiers|
        invariant successCount == Successes(notifiers[..i], msg, transport)
        invariant attempted == notifiers[..i]
      {
        if Deliver(notifiers[i], msg, transport) {
          successCount := successCount + 1;
        }
        attempted := attempted + [notifiers[i]];
        assert notifiers[..i + 1][..i] == notifiers[..i];
      }
      assert notifiers[..|notifiers|] == notifiers;
      SuccessesPositive(notifiers, msg, transport);
      ok := successCount > 0;
    }
  }

  // ---------------------------------------------------------------------------
  // The email body

  const EMAIL_HEAD: string := "\n        <html>\n        <body>\n            <h2>北大成绩监控通知</h2>\n            <p>"
  const EMAIL_MIDDLE: string := "</p>\n            "
  const EMAIL_TAIL: string :=
    "\n            <hr>\n            <p><small>本邮件由北大成绩监控系统自动发送</small></p>\n        </body>\n        </html>\n        "

  /** One row of the course-details table. */
  function DetailRow(caption: string, value: string): string {
    "\n                <tr><td><strong>" + caption + "</strong></td><td>" + value + "</td></tr>"
  }

  const DETAILS_OPEN: string :=
    "\n            <h3>课程详情</h3>\n            <table border=\"1\" style=\"border-collapse: collapse;\">"
  const DETAILS_CLOSE: string := "\n            </table>\n            "

  /** The course-details block: name, grade, gpa, credit and term. */
  function CourseDetails(c: Course): string {
    DETAILS_OPEN
    + DetailRow("课程名称", c.courseName) + DetailRow("成绩", c.grade) + DetailRow("绩点", c.gpa)
    + DetailRow("学分", c.credit) + DetailRow("学期", c.term)
    + DETAILS_CLOSE
  }

  lemma DetailRowShowsValue(caption: string, value: string)
    ensures IsInfix(value, DetailRow(caption, value))
  {
    var head := "\n                <tr><td><strong>" + caption + "</strong></td><td>";
    InfixOfConcat(head, value, "</td></tr>");
  }

  lemma CourseDetailsShowFields(c: Course)
    ensures IsInfix(c.courseName, CourseDetails(c)) && IsInfix(c.grade, CourseDetails(c))
    ensures IsInfix(c.gpa, CourseDetails(c)) && IsInfix(c.credit, CourseDetails(c))
    ensures IsInfix(c.term, CourseDetails(c))
  {
    var r1, r2, r3 := DetailRow("课程名称", c.courseName), DetailRow("成绩", c.grade), DetailRow("绩点", c.gpa);
    var r4, r5 := DetailRow("学分", c.credit), DetailRow("学期", c.term);
    var p1 := DETAILS_OPEN + r1;
    var p2 := p1 + r2;
    var p3 := p2 + r3;
    var p4 := p3 + r4;
    var p5 := p4 + r5;
    assert CourseDetails(c) == p5 + DETAILS_CLOSE;
    DetailRowShowsValue("课程名称", c.courseName);
    DetailRowShowsValue("成绩", c.grade);
    DetailRowShowsValue("绩点", c.gpa);
    DetailRowShowsValue("学分", c.credit);
    DetailRowShowsValue("学期", c.term);
    InfixInRight(c.courseName, DETAILS_OPEN, r1);
    InfixInLeft(c.courseName, p1, r2);
    InfixInLeft(c.courseName, p2, r3);
    InfixInLeft(c.courseName, p3, r4);
    InfixInLeft(c.courseName, p4, r5);
    InfixInLeft(c.courseName, p5, DETAILS_CLOSE);
    InfixInRight(c.grade, p1, r2);
    InfixInLeft(c.grade, p2, r3);
    InfixInLeft(c.grade, p3, r4);
    InfixInLeft(c.grade, p4, r5);
    InfixInLeft(c.grade, p5, DETAILS_CLOSE);
    InfixInRight(c.gpa, p2, r3);
    InfixInLeft(c.gpa, p3, r4);
    InfixInLeft(c.gpa, p4, r5);
    InfixInLeft(c.gpa, p5, DETAILS_CLOSE);
    InfixInRight(c.credit, p3, r4);
    InfixInLeft(c.credit, p4, r5);
    InfixInLeft(c.credit, p5, DETAILS_CLOSE);
    InfixInRight(c.term, p4, r5);
    InfixInLeft(c.term, p5, DETAILS_CLOSE);
  }

  /** The template of `_build_email_content` with both placeholders filled. */
  function FillTemplate(content: string, details: string): string {
    EMAIL_HEAD + content + EMAIL_MIDDLE + details + EMAIL_TAIL
  }

  lemma TemplateShowsParts(content: string, details: string)
    ensures IsInfix(content, FillTemplate(content, details)) && IsInfix(details, FillTemplate(content, details))
  {
    var p1 := EMAIL_HEAD + content;
    var p2 := p1 + EMAIL_MIDDLE;
    var p3 := p2 + details;
    assert FillTemplate(content, details) == p3 + EMAIL_TAIL;
    InfixSelf(content);
    InfixInRight(content, EMAIL_HEAD, content);
    InfixInLeft(content, p1, EMAIL_MIDDLE);
    InfixInLeft(content, p2, details);
    InfixInLeft(content, p3, EMAIL_TAIL);
    InfixSelf(details);
    InfixInRight(details, p2, details);
    InfixInLeft(details, p3, EMAIL_TAIL);
  }

  /** `EmailNotifier._build_email_content`: the HTML template filled with the content and, when a course
      is given, the course-details table. */
  function BuildEmailContent(content: string, course: Option<Course>): (html: string)
    ensures IsInfix(content, html)
    ensures course.Some? ==> IsInfix(CourseDetails(course.value), html)
    ensures course.Some? ==> IsInfix(course.value.courseName, html) && IsInfix(course.value.grade, html)
                             && IsInfix(course.value.gpa, html) && IsInfix(course.value.credit, html)
                             && IsInfix(course.value.term, html)
    ensures course.None? <==> |html| == |EMAIL_HEAD| + |content| + |EMAIL_MIDDLE| + |EMAIL_TAIL|
  {
    match course
    case None =>
      TemplateShowsParts(content, "");
      FillTemplate(content, "")
    case Some(c) =>
      var details := CourseDetails(c);
      var html := FillTemplate(content, details);
      TemplateShowsParts(content, details);
      CourseDetailsShowFields(c);
      InfixTransitive(c.courseName, details, html);
      InfixTransitive(c.grade, details, html);
      InfixTransitive(c.gpa, details, html);
      InfixTransitive(c.credit, details, html);
      InfixTransitive(c.term, details, html);
      html
  }

  // ---------------------------------------------------------------------------
  // The factory

  /** All six keys an email channel is built from are present (their values may be anything). */
  predicate HasEmailKeys(config: Config) {
    && "smtp_server" in config && "smtp_port" in config && "email_username" in config
    && "email_password" in config && "from_email" in config && "to_email" in config
  }

  /** `config.get('bark')` is truthy. */
  predicate HasBarkToken(config: Config) {
    "bark" in config && Truthy(config["bark"])
  }

  function EmailFromConfig(config: Config): Notifier
    requires HasEmailKeys(config)
  {
    Email(EmailSettings(config["smtp_server"], config["smtp_port"], config["email_username"],
                        config["email_password"], config["from_email"], config["to_email"]))
  }

  /** `config.get('type', '').lower()`, or `None` when the value is not text and `.lower()` raises. */
  function NotifierType(config: Config): Option<string> {
    match Get(config, "type", Str(""))
    case Str(s) => Some(Lower(s))
    case _ => None
  }

  /** The children of a `multi` configuration, added in this order: Bark if a token is set, then email if
      all six keys are present. */
  function MultiChildren(config: Config): (cs: seq<Notifier>)
    ensures |cs| <= 2 && forall n | n in cs :: n.Bark? || n.Email?
    ensures (|cs| > 0 && cs[0].Bark?) <==> HasBarkToken(config)
    ensures cs == [] <==> !HasBarkToken(config) && !HasEmailKeys(config)
    ensures |cs| == (if HasBarkToken(config) then 1 else 0) + (if HasEmailKeys(config) then 1 else 0)
    ensures HasBarkToken(config) ==> cs[0] == Bark(config["bark"])
    ensures HasEmailKeys(config) ==> cs[|cs| - 1] == EmailFromConfig(config)
  {
    (if HasBarkToken(config) then [Bark(config["bark"])] else [])
    + (if HasEmailKeys(config) then [EmailFromConfig(config)] else [])
  }

  /** `create_notifier_from_config`. A `type` that is not text makes `.lower()` raise: `Failure`. */
  function CreateNotifierFromConfig(config: Config): (r: Result<Option<Notifier>>)
    ensures r.Failure? <==> NotifierType(config).None?
    ensures r.Success? && r.value.Some? && r.value.value.Bark? ==>
              HasBarkToken(config) && r.value.value.token == config["bark"]
    ensures r.Success? && r.value.Some? && r.value.value.Email? ==>
              NotifierType(config) == Some("email") && HasEmailKeys(config) && r.value == Some(EmailFromConfig(config))
    ensures r.Success? && r.value.Some? && r.value.value.Multi? ==>
              NotifierType(config) == Some("multi") && r.value.value.children == MultiChildren(config)
              && 1 <= |r.value.value.children| <= 2
    ensures r.Success? && r.value.Some? && r.value.value.Console? ==> NotifierType(config) == Some("console")
    ensures r.Success? ==>
              (r.value.None? <==>
                 && NotifierType(config) != Some("console")
                 && !HasBarkToken(config)
                 && !(HasEmailKeys(config) && NotifierType(config) in {Some("email"), Some("multi")}))
    ensures NotifierType(config) == Some("bark") && HasBarkToken(config) ==> r == Success(Some(Bark(config["bark"])))
    ensures NotifierType(config) == Some("email") && HasEmailKeys(config) ==> r == Success(Some(EmailFromConfig(config)))
    ensures NotifierType(config) == Some("console") ==> r == Success(Some(Console))
    ensures NotifierType(config) == Some("multi") ==>
              r == Success(if MultiChildren(config) == [] then None else Some(Multi(MultiChildren(config))))
  {
    match NotifierType(config)
    case None => Failure("AttributeError")
    case Some(t) =>
      Success(
        if t == "bark" && HasBarkToken(config) then Some(Bark(config["bark"]))
        else if t == "email" && HasEmailKeys(config) then Some(EmailFromConfig(config))
        else if t == "console" then Some(Console)
        else if t == "multi" then
          var cs := MultiChildren(config);
          if cs == [] then None else Some(Multi(cs))
        else if HasBarkToken(config) then Some(Bark(config["bark"]))
        else None)
  }

  /** Every type other than a complete `email`, `console` and `multi` falls back to Bark when a token is
      set, and to no notifier otherwise: so does `bark` without a token, and an incomplete `email`. */
  lemma FactoryFallsBackToBark(config: Config, t: string)
    requires NotifierType(config) == Some(t)
    requires t != "console" && t != "multi" && !(t == "email" && HasEmailKeys(config))
    ensures CreateNotifierFromConfig(config) ==
              Success(if HasBarkToken(config) then Some(Bark(config["bark"])) else None)
  {}

  /** The type is matched case-insensitively. */
  lemma FactoryIgnoresTypeCase(config: Config, s: string)
    requires "type" in config && config["type"] == Str(s)
    ensures CreateNotifierFromConfig(config) == CreateNotifierFromConfig(config["type" := Str(Lower(s))])
  {
    var s' := Lower(s);
    assert Lower(s') == s' by {
      forall i | 0 <= i < |s| ensures LowerChar(s'[i]) == s'[i] {}
    }
  }
}
