/**
 * The invitation email service (api/email/services/Email.js): the message
 * template and the retry-with-backoff delivery loop. The copies of
 * `generateTemplate` and `sendEmailInvite` in the auth controller are
 * identical to these.
 */
module Email {
  import opened Json

  /** The four environment settings the service reads. */
  datatype Config = Config(inviteUrl: string, retryDelay: nat, multiplier: nat, maxRetryDuration: nat)

  datatype Template = Template(subject: string, text: string, html: string)

  const Subject := "Invitation to register on ATLP DevPulse"

  /** A falsy `inviter` or `role` on the invite is replaced by an empty object. */
  function PatchInvite(invite: Record): (r: Record)
    ensures r.Keys == invite.Keys + {"inviter", "role"}
    ensures Truthy(r["inviter"]) && Truthy(r["role"])
    ensures Truthy(Get(invite, "inviter")) ==> r["inviter"] == invite["inviter"]
    ensures !Truthy(Get(invite, "inviter")) ==> r["inviter"] == Obj(map[])
    ensures Truthy(Get(invite, "role")) ==> r["role"] == invite["role"]
    ensures !Truthy(Get(invite, "role")) ==> r["role"] == Obj(map[])
    ensures forall k :: k in invite && k != "inviter" && k != "role" ==> r[k] == invite[k]
  {
    var withInviter := if Truthy(Get(invite, "inviter")) then invite else invite["inviter" := Obj(map[])];
    if Truthy(Get(withInviter, "role")) then withInviter else withInviter["role" := Obj(map[])]
  }

  /** Destructuring a field out of a value that is neither null nor undefined. */
  function Field(v: Value, key: string): Value {
    if v.Obj? then Get(v.fields, key) else Undefined
  }

  function TextBody(cfg: Config, firstName: Value, lastName: Value, roleName: Value): string {
    "Welcome to ATLP Rwanda\n    " + Show(firstName) + " " + Show(lastName)
    + " is inviting you to join as " + Show(roleName)
    + ", please click on, or copy and paste this " + cfg.inviteUrl
    + " into your browser's address bar to accept the invite"
  }

  const HtmlHead := "<h1>Welcome to ATLP Rwanda</h1>\n    <p>"

  function HtmlBody(cfg: Config, firstName: Value, lastName: Value, roleName: Value): string {
    HtmlHead + Show(Or(firstName, Str("ATLP"))) + " " + Show(Or(lastName, Str("Rwanda")))
    + " is inviting you to join as " + Show(Or(roleName, Str("a contributor")))
    + ", please click on, or copy and paste this <a href=" + cfg.inviteUrl + ">" + cfg.inviteUrl
    + "</a> into your browser's address bar<p> to accept the invite"
  }

  /** The message built from an invite whose inviter and role have been patched. */
  function TemplateOf(cfg: Config, invite: Record): (t: Template)
    ensures t.subject == "Invitation to register on ATLP DevPulse"
    ensures HtmlHead <= t.html
  {
    var inviter := Get(invite, "inviter");
    var role := Get(invite, "role");
    Template(Subject,
             TextBody(cfg, Field(inviter, "first_name"), Field(inviter, "last_name"), Field(role, "name")),
             HtmlBody(cfg, Field(inviter, "first_name"), Field(inviter, "last_name"), Field(role, "name")))
  }

  /** Patching never changes what destructuring reads: a falsy holder is not an object,
      so its fields read as undefined either way. */
  lemma PatchKeepsFields(invite: Record, holder: string, key: string)
    requires holder == "inviter" || holder == "role"
    ensures Field(Get(PatchInvite(invite), holder), key) == Field(Get(invite, holder), key)
  {
    if !Truthy(Get(invite, holder)) {
      assert Get(PatchInvite(invite), holder) == Obj(map[]);
    }
  }

  /** The message generated from any invite: the subject is fixed; in the html each name is
      itself when truthy and its placeholder otherwise; the text shows each name as it is. */
  lemma GreetingFallbacks(cfg: Config, invite: Record)
    ensures var first := Field(Get(invite, "inviter"), "first_name");
      var last := Field(Get(invite, "inviter"), "last_name");
      var name := Field(Get(invite, "role"), "name");
      var t := TemplateOf(cfg, PatchInvite(invite));
      && t.subject == "Invitation to register on ATLP DevPulse"
      && t.html ==
        HtmlHead + (if Truthy(first) then Show(first) else "ATLP") + " " + (if Truthy(last) then Show(last) else "Rwanda")
        + " is inviting you to join as " + (if Truthy(name) then Show(name) else "a contributor")
        + ", please click on, or copy and paste this <a href=" + cfg.inviteUrl + ">" + cfg.inviteUrl
        + "</a> into your browser's address bar<p> to accept the invite"
      && t.text ==
        "Welcome to ATLP Rwanda\n    " + Show(first) + " " + Show(last) + " is inviting you to join as " + Show(name)
        + ", please click on, or copy and paste this " + cfg.inviteUrl
        + " into your browser's address bar to accept the invite"
  {
    PatchKeepsFields(invite, "inviter", "first_name");
    PatchKeepsFields(invite, "inviter", "last_name");
    PatchKeepsFields(invite, "role", "name");
  }

  /** An invite with no inviter and no role: the html falls back entirely, the text shows "undefined". */
  lemma AnonymousInvite(cfg: Config, invite: Record)
    requires !Truthy(Get(invite, "inviter")) && !Truthy(Get(invite, "role"))
    ensures TemplateOf(cfg, PatchInvite(invite)).subject == "Invitation to register on ATLP DevPulse"
    ensures TemplateOf(cfg, PatchInvite(invite)).html ==
      HtmlHead + "ATLP" + " " + "Rwanda" + " is inviting you to join as " + "a contributor"
      + ", please click on, or copy and paste this <a href=" + cfg.inviteUrl + ">" + cfg.inviteUrl
      + "</a> into your browser's address bar<p> to accept the invite"
    ensures TemplateOf(cfg, PatchInvite(invite)).text ==
      "Welcome to ATLP Rwanda\n    " + "undefined" + " " + "undefined" + " is inviting you to join as " + "undefined"
      + ", please click on, or copy and paste this " + cfg.inviteUrl
      + " into your browser's address bar to accept the invite"
  {
    var p := PatchInvite(invite);
    assert Get(p, "inviter") == Obj(map[]) && Get(p, "role") == Obj(map[]);
    assert Field(Get(p, "inviter"), "first_name") == Undefined;
    assert Field(Get(p, "inviter"), "last_name") == Undefined;
    assert Field(Get(p, "role"), "name") == Undefined;
  }

  /** `generateTemplate(invite)`: patches the invite in place, then builds the message. */
  method GenerateTemplate(cfg: Config, invite: Doc) returns (t: Template)
    modifies invite
    ensures invite.fields == PatchInvite(old(invite.fields))
    ensures t == TemplateOf(cfg, invite.fields)
  {
    if !Truthy(Get(invite.fields, "inviter")) {
      invite.fields := invite.fields["inviter" := Obj(map[])];
    }
    if !Truthy(Get(invite.fields, "role")) {
      invite.fields := invite.fields["role" := Obj(map[])];
    }
    t := TemplateOf(cfg, invite.fields);
  }

  /** A message handed to the detached delivery loop: its recipient and the patched
      invite its template is generated from. */
  datatype Delivery = Delivery(to: Value, invite: Record) {
    function Message(cfg: Config): Template {
      TemplateOf(cfg, invite)
    }
  }

  /** The deliveries that `sendEmailInvite` has started, in order. */
  class Outbox {
    var started: seq<Delivery>

    constructor ()
      ensures started == []
    {
      started := [];
    }
  }

  /** `sendEmailInvite(invite)`: builds the template and starts the delivery loop, whose
      result is not returned to the caller. */
  method SendEmailInvite(cfg: Config, invite: Doc, outbox: Outbox)
    modifies invite, outbox
    ensures invite.fields == PatchInvite(old(invite.fields))
    ensures outbox.started == old(outbox.started) + [Delivery(Get(invite.fields, "email"), invite.fields)]
  {
    var template := GenerateTemplate(cfg, invite);
    assert template == Delivery(Get(invite.fields, "email"), invite.fields).Message(cfg);
    outbox.started := outbox.started + [Delivery(Get(invite.fields, "email"), invite.fields)];
  }

  // ---------------------------------------------------------------------
  // The delivery loop `sendMail` as a state machine over naturals.
  // ---------------------------------------------------------------------

  datatype Phase = Trying | Delivered | GaveUp

  /** Which of the three status messages `resp` holds. */
  datatype Notice = Silent | SentNotice | RetryNotice | AbortNotice

  /** The loop's closure state: `delay`, `resp`, and a record of the attempts so far
      and of the wait scheduled before each retry. */
  datatype Attempts = Attempts(phase: Phase, delay: nat, tries: nat, waits: seq<nat>, resp: Notice)

  function SentMessage(to: Value): string {
    "Invitation email sent to " + Show(to)
  }

  function RetryMessage(to: Value): string {
    "Error sending email to " + Show(to) + ". You will be notified when the email is sent"
  }

  function AbortMessage(cfg: Config, to: Value): string {
    "Failed to send email to " + Show(to) + ". Aborting retrying. Please send this link, " + cfg.inviteUrl + ", manually"
  }

  /** The text of `resp`. */
  function NoticeText(cfg: Config, to: Value, n: Notice): string {
    match n
    case Silent => ""
    case SentNotice => SentMessage(to)
    case RetryNotice => RetryMessage(to)
    case AbortNotice => AbortMessage(cfg, to)
  }

  function Start(cfg: Config): Attempts {
    Attempts(Trying, cfg.retryDelay, 0, [], Silent)
  }

  /** One run of `sendMail`: an attempt, then either success, a retry after the current
      delay (which is then multiplied), or giving up. */
  function Step(cfg: Config, to: Value, s: Attempts, delivered: bool): (r: Attempts)
    requires s.phase == Trying
    ensures r.tries == s.tries + 1
    ensures r.phase == Delivered <==> delivered
    ensures r.phase == GaveUp <==> !delivered && s.delay >= cfg.maxRetryDuration
    ensures r.phase == Trying ==> r.waits == s.waits + [s.delay] && r.delay == s.delay * cfg.multiplier
    ensures r.phase != Trying ==> r.waits == s.waits && r.delay == s.delay
  {
    if delivered then
      s.(phase := Delivered, tries := s.tries + 1, resp := SentNotice)
    else if s.delay < cfg.maxRetryDuration then
      s.(tries := s.tries + 1, waits := s.waits + [s.delay], delay := s.delay * cfg.multiplier, resp := RetryNotice)
    else
      s.(phase := GaveUp, tries := s.tries + 1, resp := AbortNotice)
  }

  /** The state after `n` runs, where the mail sender's answer to attempt `i` is `mailer(i)`. */
  function Trace(cfg: Config, to: Value, mailer: nat -> bool, n: nat): (r: Attempts)
    ensures r.tries <= n
    ensures r.phase == Trying ==> r.tries == n && |r.waits| == n
    ensures r.phase != Trying ==> r.tries >= 1 && |r.waits| == r.tries - 1
  {
    if n == 0 then Start(cfg)
    else
      var s := Trace(cfg, to, mailer, n - 1);
      if s.phase == Trying then Step(cfg, to, s, mailer(s.tries)) else s
  }

  function Pow(b: nat, e: nat): nat {
    if e == 0 then 1 else b * Pow(b, e - 1)
  }

  /** The delay after `i` multiplications of `d` by `m`. */
  function Delay(d: nat, m: nat, i: nat): nat {
    d * Pow(m, i)
  }

  lemma DelayNext(d: nat, m: nat, i: nat)
    ensures Delay(d, m, i + 1) == Delay(d, m, i) * m
    ensures Delay(d * m, m, i) == Delay(d, m, i + 1)
  {
    assert Pow(m, i + 1) == m * Pow(m, i);
    assert d * (m * Pow(m, i)) == d * Pow(m, i) * m;
    assert d * m * Pow(m, i) == d * (m * Pow(m, i));
  }

  /** The delays d, d·m, …, d·mⁿ⁻¹. */
  function Powers(d: nat, m: nat, n: nat): (r: seq<nat>)
    ensures |r| == n
  {
    if n == 0 then [] else Powers(d, m, n - 1) + [Delay(d, m, n - 1)]
  }

  lemma {:induction false} PowersAt(d: nat, m: nat, n: nat, i: nat)
    requires i < n
    ensures Powers(d, m, n)[i] == Delay(d, m, i)
  {
    if i < n - 1 {
      PowersAt(d, m, n - 1, i);
    }
  }

  /** The configurations under which permanent failure ends in giving up. */
  predicate Converges(cfg: Config) {
    cfg.retryDelay >= cfg.maxRetryDuration || (cfg.retryDelay > 0 && cfg.multiplier > 1)
  }

  /** The waits scheduled under permanent failure, starting from delay `d`. */
  function Waits(cfg: Config, d: nat): seq<nat>
    requires d >= cfg.maxRetryDuration || (d > 0 && cfg.multiplier > 1)
    decreases if d < cfg.maxRetryDuration then cfg.maxRetryDuration - d else 0
  {
    if d < cfg.maxRetryDuration then
      assert d * cfg.multiplier >= d * 2;
      [d] + Waits(cfg, d * cfg.multiplier)
    else []
  }

  /** The waits are D0, D0·M, D0·M², … up to the first delay that reaches the ceiling,
      which is compared but not waited. */
  lemma {:induction false} WaitsArePowers(cfg: Config, d: nat)
    requires d >= cfg.maxRetryDuration || (d > 0 && cfg.multiplier > 1)
    ensures forall i :: 0 <= i < |Waits(cfg, d)| ==>
      Waits(cfg, d)[i] == Delay(d, cfg.multiplier, i) < cfg.maxRetryDuration
    ensures Delay(d, cfg.multiplier, |Waits(cfg, d)|) >= cfg.maxRetryDuration
    decreases if d < cfg.maxRetryDuration then cfg.maxRetryDuration - d else 0
  {
    var m := cfg.multiplier;
    if d < cfg.maxRetryDuration {
      assert d * m >= d * 2;
      var rest := Waits(cfg, d * m);
      WaitsArePowers(cfg, d * m);
      assert Waits(cfg, d) == [d] + rest;
      forall i | 0 <= i < |Waits(cfg, d)|
        ensures Waits(cfg, d)[i] == Delay(d, m, i) < cfg.maxRetryDuration
      {
        if i > 0 {
          DelayNext(d, m, i - 1);
        }
      }
      DelayNext(d, m, |rest|);
    }
  }

  /** Conversely, the waits are the delays before the first one that reaches the ceiling. */
  lemma {:induction false} WaitsCharacterized(cfg: Config, d: nat, k: nat)
    requires (d > 0 && cfg.multiplier > 1) || d >= cfg.maxRetryDuration
    requires forall i :: 0 <= i < k ==> Delay(d, cfg.multiplier, i) < cfg.maxRetryDuration
    requires Delay(d, cfg.multiplier, k) >= cfg.maxRetryDuration
    ensures Waits(cfg, d) == Powers(d, cfg.multiplier, k)
    decreases k
  {
    var m := cfg.multiplier;
    if k == 0 {
      assert d >= cfg.maxRetryDuration;
    } else {
      assert Delay(d, m, 0) < cfg.maxRetryDuration;
      assert d * m >= d * 2;
      forall i | 0 <= i < k - 1 ensures Delay(d * m, m, i) < cfg.maxRetryDuration {
        DelayNext(d, m, i);
      }
      DelayNext(d, m, k - 1);
      WaitsCharacterized(cfg, d * m, k - 1);
      var s := Powers(d, m, k);
      var s' := Powers(d * m, m, k - 1);
      forall i | 0 <= i < k - 1 ensures s[i + 1] == s'[i] {
        DelayNext(d, m, i);
        PowersAt(d, m, k, i + 1);
        PowersAt(d * m, m, k - 1, i);
      }
      PowersAt(d, m, k, 0);
      assert s == [d] + s';
    }
  }

  /** Until the machine stops, after `n` runs it has made `n` failed attempts and scheduled
      `n` waits, each below the ceiling, and its delay is D0·Mⁿ. */
  lemma {:induction false} TraceWhileTrying(cfg: Config, to: Value, mailer: nat -> bool, n: nat)
    requires Trace(cfg, to, mailer, n).phase == Trying
    ensures Trace(cfg, to, mailer, n).tries == n
    ensures Trace(cfg, to, mailer, n).delay == Delay(cfg.retryDelay, cfg.multiplier, n)
    ensures Trace(cfg, to, mailer, n).waits == Powers(cfg.retryDelay, cfg.multiplier, n)
    ensures forall i :: 0 <= i < n ==> !mailer(i)
    ensures forall i :: 0 <= i < n ==> Delay(cfg.retryDelay, cfg.multiplier, i) < cfg.maxRetryDuration
    ensures n > 0 ==> Trace(cfg, to, mailer, n).resp == RetryNotice
  {
    if n > 0 {
      var p := Trace(cfg, to, mailer, n - 1);
      assert p.phase == Trying;
      TraceWhileTrying(cfg, to, mailer, n - 1);
      DelayNext(cfg.retryDelay, cfg.multiplier, n - 1);
    }
  }

  lemma {:induction false} TraceTryingUpTo(cfg: Config, to: Value, mailer: nat -> bool, k: nat)
    requires forall i :: !mailer(i)
    requires forall i :: 0 <= i < k ==> Delay(cfg.retryDelay, cfg.multiplier, i) < cfg.maxRetryDuration
    ensures Trace(cfg, to, mailer, k).phase == Trying
  {
    if k > 0 {
      TraceTryingUpTo(cfg, to, mailer, k - 1);
      TraceWhileTrying(cfg, to, mailer, k - 1);
    }
  }

  lemma {:induction false} NeverGivesUp(cfg: Config, to: Value, mailer: nat -> bool, n: nat)
    requires forall i :: !mailer(i)
    requires !Converges(cfg)
    ensures Trace(cfg, to, mailer, n).phase == Trying
    ensures Trace(cfg, to, mailer, n).delay <= cfg.retryDelay
  {
    if n > 0 {
      NeverGivesUp(cfg, to, mailer, n - 1);
      var p := Trace(cfg, to, mailer, n - 1);
      if cfg.multiplier <= 1 {
        assert p.delay * cfg.multiplier <= p.delay;
      } else {
        assert p.delay == 0;
      }
    }
  }

  /** Whatever the mail sender answers, a configuration that does not converge never gives
      up, and its delay never grows beyond D0. */
  lemma {:induction false} GivingUpNeedsConvergence(cfg: Config, to: Value, mailer: nat -> bool, n: nat)
    requires !Converges(cfg)
    ensures Trace(cfg, to, mailer, n).phase != GaveUp
    ensures Trace(cfg, to, mailer, n).delay <= cfg.retryDelay
  {
    if n > 0 {
      GivingUpNeedsConvergence(cfg, to, mailer, n - 1);
      var p := Trace(cfg, to, mailer, n - 1);
      if p.phase == Trying && !mailer(p.tries) {
        if cfg.multiplier <= 1 {
          assert p.delay * cfg.multiplier <= p.delay;
        } else {
          assert p.delay == 0;
        }
      }
    }
  }

  /** Under permanent failure, the machine gives up if and only if the configuration converges. */
  lemma GivesUpIffConverges(cfg: Config, to: Value, mailer: nat -> bool)
    requires forall i :: !mailer(i)
    ensures (exists n :: Trace(cfg, to, mailer, n).phase == GaveUp) <==> Converges(cfg)
  {
    if Converges(cfg) {
      var k := |Waits(cfg, cfg.retryDelay)|;
      WaitsArePowers(cfg, cfg.retryDelay);
      TraceTryingUpTo(cfg, to, mailer, k);
      TraceWhileTrying(cfg, to, mailer, k);
      var s := Trace(cfg, to, mailer, k);
      assert !mailer(s.tries) && s.delay >= cfg.maxRetryDuration;
      assert Trace(cfg, to, mailer, k + 1) == Step(cfg, to, s, false);
      assert Trace(cfg, to, mailer, k + 1).phase == GaveUp;
    } else {
      forall n ensures Trace(cfg, to, mailer, n).phase == Trying {
        NeverGivesUp(cfg, to, mailer, n);
      }
    }
  }

  /** With D0 = 1000, M = 2 and a ceiling of 5000, permanent failure waits 1000, 2000 and
      4000, and the fourth attempt gives up. */
  lemma ExampleSchedule(to: Value, mailer: nat -> bool)
    requires forall i :: !mailer(i)
    ensures Waits(Config("", 1000, 2, 5000), 1000) == [1000, 2000, 4000]
    ensures Trace(Config("", 1000, 2, 5000), to, mailer, 3).phase == Trying
    ensures Trace(Config("", 1000, 2, 5000), to, mailer, 4).phase == GaveUp
    ensures Trace(Config("", 1000, 2, 5000), to, mailer, 4).waits == [1000, 2000, 4000]
  {
    var cfg := Config("", 1000, 2, 5000);
    assert Trace(cfg, to, mailer, 1).delay == 2000;
    assert Trace(cfg, to, mailer, 2).delay == 4000;
    assert Trace(cfg, to, mailer, 3).delay == 8000;
  }

  /** What a stopped run looks like: every attempt but the last failed, each wait was a
      delay below the ceiling, delivery happened exactly when the last attempt succeeded,
      and a run that gave up waited exactly `Waits`. */
  lemma StoppedTrace(cfg: Config, to: Value, mailer: nat -> bool, s: Attempts)
    requires s.tries >= 1 && Trace(cfg, to, mailer, s.tries - 1).phase == Trying
    requires s == Trace(cfg, to, mailer, s.tries) && s.phase != Trying
    ensures |s.waits| == s.tries - 1
    ensures forall i :: 0 <= i < s.tries - 1 ==> !mailer(i)
    ensures s.phase == Delivered <==> mailer(s.tries - 1)
    ensures forall i :: 0 <= i < |s.waits| ==>
      s.waits[i] == Delay(cfg.retryDelay, cfg.multiplier, i) < cfg.maxRetryDuration
    ensures s.phase == GaveUp ==> Converges(cfg) && s.waits == Waits(cfg, cfg.retryDelay)
    ensures s.resp == if s.phase == Delivered then SentNotice else AbortNotice
  {
    var n := s.tries;
    var p := Trace(cfg, to, mailer, n - 1);
    TraceWhileTrying(cfg, to, mailer, n - 1);
    assert s == Step(cfg, to, p, mailer(n - 1));
    forall i | 0 <= i < |p.waits|
      ensures p.waits[i] == Delay(cfg.retryDelay, cfg.multiplier, i) < cfg.maxRetryDuration
    {
      PowersAt(cfg.retryDelay, cfg.multiplier, n - 1, i);
    }
    if s.phase == GaveUp {
      if !Converges(cfg) {
        GivingUpNeedsConvergence(cfg, to, mailer, n);
        assert false;
      }
      WaitsCharacterized(cfg, cfg.retryDelay, n - 1);
    }
  }

  /** The distance of the delay from the ceiling, which each retry shortens. */
  function Remaining(cfg: Config, s: Attempts): nat {
    if s.phase != Trying then 0
    else if s.delay < cfg.maxRetryDuration then cfg.maxRetryDuration - s.delay + 1
    else 1
  }

  lemma StepProgress(cfg: Config, to: Value, s: Attempts, delivered: bool)
    requires s.phase == Trying
    requires s.delay >= cfg.maxRetryDuration || (s.delay > 0 && cfg.multiplier > 1)
    ensures var t := Step(cfg, to, s, delivered);
      && Remaining(cfg, t) < Remaining(cfg, s)
      && (t.phase == Trying ==> t.delay > 0 && cfg.multiplier > 1)
  {
    if !delivered && s.delay < cfg.maxRetryDuration {
      assert s.delay * cfg.multiplier >= s.delay * 2;
    }
  }

  /** What is left of the loop: the distance to the ceiling when the configuration
      converges, otherwise the runs up to attempt `success`. */
  function Budget(cfg: Config, s: Attempts, success: nat): nat {
    if Converges(cfg) then Remaining(cfg, s)
    else if s.phase == Trying && s.tries <= success then success + 1 - s.tries
    else 0
  }

  /** What the loop keeps true while it is still trying. */
  predicate Running(cfg: Config, to: Value, mailer: nat -> bool, s: Attempts, success: nat) {
    && s.phase == Trying
    && s == Trace(cfg, to, mailer, s.tries)
    && (Converges(cfg) ==> s.delay >= cfg.maxRetryDuration || (s.delay > 0 && cfg.multiplier > 1))
    && (!Converges(cfg) ==> s.tries <= success && mailer(success))
  }

  /** One run of the loop keeps it running or stops it, and uses up some of the budget. */
  lemma LoopStep(cfg: Config, to: Value, mailer: nat -> bool, s: Attempts, success: nat)
    requires Running(cfg, to, mailer, s, success)
    ensures var t := Step(cfg, to, s, mailer(s.tries));
      && t == Trace(cfg, to, mailer, t.tries) && t.tries == s.tries + 1
      && (t.phase == Trying ==> Running(cfg, to, mailer, t, success))
      && Budget(cfg, t, success) < Budget(cfg, s, success)
  {
    var t := Step(cfg, to, s, mailer(s.tries));
    assert Trace(cfg, to, mailer, s.tries + 1) == t;
    if Converges(cfg) {
      StepProgress(cfg, to, s, mailer(s.tries));
    } else if t.phase == Trying {
      assert !mailer(s.tries);
    }
  }

  /** How a run of `sendMail` ends: it has stopped after `s.tries` attempts, all but the
      last of which failed; it is delivered exactly when the last one succeeded; the waits
      were the delays D0·Mⁱ, each below the ceiling, and all of `Waits` when it gave up,
      which only a converging configuration does; `resp` holds the success message or
      the aborting one. */
  predicate Concluded(cfg: Config, to: Value, mailer: nat -> bool, s: Attempts) {
    && s.phase != Trying
    && s == Trace(cfg, to, mailer, s.tries)
    && s.tries >= 1 && |s.waits| == s.tries - 1
    && (forall i :: 0 <= i < s.tries - 1 ==> !mailer(i))
    && (s.phase == Delivered <==> mailer(s.tries - 1))
    && (forall i :: 0 <= i < |s.waits| ==>
          s.waits[i] == Delay(cfg.retryDelay, cfg.multiplier, i) < cfg.maxRetryDuration)
    && (s.phase == GaveUp ==> Converges(cfg) && s.waits == Waits(cfg, cfg.retryDelay))
    && NoticeText(cfg, to, s.resp) == if s.phase == Delivered then SentMessage(to) else AbortMessage(cfg, to)
  }

  /** A run that has just stopped has concluded. */
  lemma StoppedConcludes(cfg: Config, to: Value, mailer: nat -> bool, s: Attempts)
    requires s.tries >= 1 && Trace(cfg, to, mailer, s.tries - 1).phase == Trying
    requires s == Trace(cfg, to, mailer, s.tries) && s.phase != Trying
    ensures Concluded(cfg, to, mailer, s)
  {
    StoppedTrace(cfg, to, mailer, s);
  }

  /** `sendMail` run to completion against the mail sender `mailer`. The loop ends when
      the configuration converges, or else when some attempt succeeds: the ghost `success`
      names one that does. `NeverGivesUp` shows that it runs forever otherwise. */
  method SendMail(cfg: Config, to: Value, mailer: nat -> bool, ghost success: nat) returns (s: Attempts)
    requires Converges(cfg) || mailer(success)
    ensures Concluded(cfg, to, mailer, s)
  {
    s := Start(cfg);
    while s.phase == Trying
      invariant s.phase == Trying ==> Running(cfg, to, mailer, s, success)
      invariant s.phase != Trying ==>
        && s == Trace(cfg, to, mailer, s.tries)
        && s.tries >= 1 && Trace(cfg, to, mailer, s.tries - 1).phase == Trying
      decreases Budget(cfg, s, success)
    {
      LoopStep(cfg, to, mailer, s, success);
      s := Step(cfg, to, s, mailer(s.tries));
    }
    StoppedConcludes(cfg, to, mailer, s);
  }

  /** The detached loop of a started delivery: `sendMail` retries sending the message
      generated from the delivery's invite to its recipient, and ends as `Concluded`
      says; the caller of `sendEmailInvite` sees none of it. */
  method Deliver(cfg: Config, d: Delivery, mailer: nat -> bool, ghost success: nat)
    returns (message: Template, s: Attempts)
    requires Converges(cfg) || mailer(success)
    ensures message == TemplateOf(cfg, d.invite) && message.subject == Subject
    ensures Concluded(cfg, d.to, mailer, s)
    ensures s.phase == Delivered <==> mailer(s.tries - 1)
  {
    message := d.Message(cfg);
    s := SendMail(cfg, d.to, mailer, success);
  }
}
