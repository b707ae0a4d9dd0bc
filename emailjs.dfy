/** The mail-relay configuration of the contact form and the rate limiter that guards it:
    credentials assembled from build-time globals, URL parameters and localStorage, and a
    sliding-window plus cooldown rule over the stored submission timestamps. */
module EmailJS {
  import opened Common

  /** Milliseconds in one hour: the width of the sliding window. */
  const OneHour: int := 60 * 60 * 1000
  /** The localStorage entry holding the submission timestamps. */
  const SubmissionsKey: string := "blacklodge_form_submissions"
  /** The name of the hidden spam-trap field. */
  const HoneypotField: string := "website_url"

  datatype RateLimiting = RateLimiting(enabled: bool, maxSubmissions: int, cooldownMinutes: int)

  /** The shipped rate-limiting settings: on, three submissions per hour, 20 minutes apart. */
  const DefaultRateLimiting: RateLimiting := RateLimiting(true, 3, 20)

  function CooldownMillis(rl: RateLimiting): int
  {
    rl.cooldownMinutes * 60 * 1000
  }

  // ---------------------------------------------------------------------------
  // The submission list

  /** The submissions of the last hour (`now - t < oneHour`), in stored order. */
  function Recent(submissions: seq<int>, now: int): (r: seq<int>)
    ensures |r| <= |submissions|
    ensures forall t :: t in r <==> t in submissions && now - t < OneHour
    decreases |submissions|
  {
    if submissions == [] then []
    else
      var rest := Recent(submissions[..|submissions| - 1], now);
      var last := submissions[|submissions| - 1];
      assert submissions == submissions[..|submissions| - 1] + [last];
      if now - last < OneHour then rest + [last] else rest
  }

  /** `Math.max(...s)` of a non-empty list. */
  function Max(s: seq<int>): (m: int)
    requires |s| > 0
    ensures m in s
    ensures forall t :: t in s ==> t <= m
    decreases |s|
  {
    if |s| == 1 then s[0]
    else
      var rest := Max(s[1..]);
      assert s == [s[0]] + s[1..];
      if s[0] >= rest then s[0] else rest
  }

  /** `canSubmit` over the stored list at time `now`. */
  function CanSubmit(rl: RateLimiting, submissions: seq<int>, now: int): bool
  {
    if !rl.enabled then true
    else
      var recent := Recent(submissions, now);
      if |recent| >= rl.maxSubmissions then false
      else if |recent| > 0 && now - Max(recent) < CooldownMillis(rl) then false
      else true
  }

  /** The rule, stated over the submissions themselves: with limiting on, a submission is
      allowed exactly when fewer than `maxSubmissions` fall within the last hour and each of
      those is at least the cooldown old. */
  lemma CanSubmitIff(rl: RateLimiting, submissions: seq<int>, now: int)
    ensures CanSubmit(rl, submissions, now) <==>
              !rl.enabled ||
              (|Recent(submissions, now)| < rl.maxSubmissions &&
               forall t :: t in submissions && now - t < OneHour ==> now - t >= CooldownMillis(rl))
  {
    var recent := Recent(submissions, now);
    if rl.enabled && |recent| < rl.maxSubmissions && |recent| > 0 {
      var m := Max(recent);
      if now - m >= CooldownMillis(rl) {
        forall t | t in submissions && now - t < OneHour ensures now - t >= CooldownMillis(rl) {
          assert t in recent;
        }
      } else {
        assert m in submissions && now - m < OneHour;
      }
    }
  }

  /** A submission recorded at `now` blocks the next one at the same instant whenever limiting
      is on with a positive cooldown or a limit of one. */
  lemma RecordBlocksImmediateRetry(rl: RateLimiting, submissions: seq<int>, now: int)
    requires rl.enabled && (rl.cooldownMinutes > 0 || rl.maxSubmissions <= 1)
    ensures !CanSubmit(rl, submissions + [now], now)
  {
    var s := submissions + [now];
    assert s[..|s| - 1] == submissions;
    var recent := Recent(s, now);
    assert now in recent;
  }

  /** The window the limiter enforces: an allowed submission, once recorded, leaves at most
      `maxSubmissions` entries in the last hour. */
  lemma AllowedKeepsWindow(rl: RateLimiting, submissions: seq<int>, now: int)
    requires rl.enabled && CanSubmit(rl, submissions, now)
    ensures |Recent(submissions + [now], now)| <= rl.maxSubmissions
  {
    var s := submissions + [now];
    assert s[..|s| - 1] == submissions;
    assert Recent(s, now) == Recent(submissions, now) + [now];
  }

  /** Submissions older than an hour never count against the window. */
  lemma StaleSubmissionsIgnored(rl: RateLimiting, submissions: seq<int>, now: int)
    requires forall t :: t in submissions ==> now - t >= OneHour
    requires rl.maxSubmissions > 0
    ensures CanSubmit(rl, submissions, now)
  {
    RecentOfStale(submissions, now);
  }

  lemma {:induction false} RecentOfStale(submissions: seq<int>, now: int)
    requires forall t :: t in submissions ==> now - t >= OneHour
    ensures Recent(submissions, now) == []
    decreases |submissions|
  {
    if submissions != [] {
      var init := submissions[..|submissions| - 1];
      assert forall t :: t in init ==> t in submissions;
      assert submissions[|submissions| - 1] in submissions;
      RecentOfStale(init, now);
    }
  }

  /** The stored list: `getSubmissions` reads `[]` when the entry is absent or empty. */
  function Submissions(stored: Option<seq<int>>): seq<int>
  {
    if stored.Some? then stored.value else []
  }

  /** `getNextAllowedTime`: `null` without submissions, otherwise the newest submission of
      all, old ones included, plus the cooldown. */
  function NextAllowedTime(rl: RateLimiting, submissions: seq<int>): (r: Option<int>)
    ensures submissions == [] <==> r.None?
    ensures r.Some? ==> exists t :: t in submissions && r.value == t + CooldownMillis(rl)
    ensures r.Some? ==> forall t :: t in submissions ==> t + CooldownMillis(rl) <= r.value
  {
    if |submissions| == 0 then None else Some(Max(submissions) + CooldownMillis(rl))
  }

  /** The shipped limits at work: a fourth submission within the hour is refused, so is
      one within 20 minutes of an earlier one, and otherwise the submission is allowed. */
  lemma DefaultCooldown(submissions: seq<int>, now: int)
    ensures |Recent(submissions, now)| >= 3 ==> !CanSubmit(DefaultRateLimiting, submissions, now)
    ensures (exists t :: t in submissions && 0 <= now - t < 1200000) ==> !CanSubmit(DefaultRateLimiting, submissions, now)
    ensures |Recent(submissions, now)| < 3 && (forall t :: t in submissions ==> now - t >= 1200000) ==>
              CanSubmit(DefaultRateLimiting, submissions, now)
  {
    CanSubmitIff(DefaultRateLimiting, submissions, now);
  }

  /** After the next allowed time, the cooldown no longer blocks: only the hourly count can. */
  lemma NextAllowedTimeClearsCooldown(rl: RateLimiting, submissions: seq<int>, now: int)
    requires rl.enabled
    requires NextAllowedTime(rl, submissions).Some? && now >= NextAllowedTime(rl, submissions).value
    requires |Recent(submissions, now)| < rl.maxSubmissions
    ensures CanSubmit(rl, submissions, now)
  {
    CanSubmitIff(rl, submissions, now);
  }

  // ---------------------------------------------------------------------------
  // Configuration

  /** A build-time global replaces the field whenever it is defined. */
  function IfDefined(current: Option<string>, global: Option<string>): Option<string>
  {
    if global.Some? then global else current
  }

  /** A URL parameter or a stored value replaces the field only when it is truthy. */
  function IfPresent(current: Option<string>, source: Option<string>): Option<string>
  {
    if Present(source) then source else current
  }

  /** One credential after `loadEmailJSConfig`: the three sources applied in turn. */
  function Override(current: Option<string>, global: Option<string>, url: Option<string>, stored: Option<string>): (r: Option<string>)
    ensures r == current || r == global || r == url || r == stored
  {
    IfPresent(IfPresent(IfDefined(current, global), url), stored)
  }

  /** The precedence of the sources, from the strongest down. */
  lemma OverridePrecedence(current: Option<string>, global: Option<string>, url: Option<string>, stored: Option<string>)
    ensures var r := Override(current, global, url, stored);
            var storedSet := stored.Some? && stored.value != "";
            var urlSet := url.Some? && url.value != "";
            && (storedSet ==> r == stored)
            && (!storedSet && urlSet ==> r == url)
            && (!storedSet && !urlSet && global.Some? ==> r == global)
            && (!storedSet && !urlSet && global.None? ==> r == current)
  {
  }

  /** Loading twice from the same sources gives the same configuration as loading once. */
  lemma OverrideIdempotent(current: Option<string>, global: Option<string>, url: Option<string>, stored: Option<string>)
    ensures Override(Override(current, global, url, stored), global, url, stored) == Override(current, global, url, stored)
  {
  }

  /** `window.EMAILJS_CONFIG`. */
  class Config {
    var publicKey: Option<string>
    var serviceId: Option<string>
    var templateId: Option<string>
    var rateLimiting: RateLimiting

    /** The configuration as the script declares it: no credentials, the default limits. */
    constructor ()
      ensures publicKey.None? && serviceId.None? && templateId.None?
      ensures rateLimiting == DefaultRateLimiting
    {
      publicKey := None;
      serviceId := None;
      templateId := None;
      rateLimiting := DefaultRateLimiting;
    }

    /** `loadEmailJSConfig`: `globalKey`, `globalService` and `globalTemplate` stand for the
        build-time `window.EMAILJS_*` values, `params` and `storage` for the URL query and
        localStorage. */
    method Load(globalKey: Option<string>, globalService: Option<string>, globalTemplate: Option<string>,
                params: map<string, string>, storage: map<string, string>)
      modifies this`publicKey, this`serviceId, this`templateId
      ensures publicKey == Override(old(publicKey), globalKey, Lookup(params, "emailjs_key"), Lookup(storage, "emailjs_public_key"))
      ensures serviceId == Override(old(serviceId), globalService, Lookup(params, "emailjs_service"), Lookup(storage, "emailjs_service_id"))
      ensures templateId == Override(old(templateId), globalTemplate, Lookup(params, "emailjs_template"), Lookup(storage, "emailjs_template_id"))
      ensures IsConfigured() <==>
                && Supplied(old(publicKey), globalKey, Lookup(params, "emailjs_key"), Lookup(storage, "emailjs_public_key"))
                && Supplied(old(serviceId), globalService, Lookup(params, "emailjs_service"), Lookup(storage, "emailjs_service_id"))
                && Supplied(old(templateId), globalTemplate, Lookup(params, "emailjs_template"), Lookup(storage, "emailjs_template_id"))
      ensures var stored := [Lookup(storage, "emailjs_public_key"), Lookup(storage, "emailjs_service_id"), Lookup(storage, "emailjs_template_id")];
              Present(stored[0]) && Present(stored[1]) && Present(stored[2]) ==> IsConfigured()
    {
      LoadGlobals(globalKey, globalService, globalTemplate);
      LoadTruthy(Lookup(params, "emailjs_key"), Lookup(params, "emailjs_service"), Lookup(params, "emailjs_template"));
      LoadTruthy(Lookup(storage, "emailjs_public_key"), Lookup(storage, "emailjs_service_id"), Lookup(storage, "emailjs_template_id"));
      StoredCredentialsConfigure(old(publicKey), globalKey, Lookup(params, "emailjs_key"), Lookup(storage, "emailjs_public_key"));
      StoredCredentialsConfigure(old(serviceId), globalService, Lookup(params, "emailjs_service"), Lookup(storage, "emailjs_service_id"));
      StoredCredentialsConfigure(old(templateId), globalTemplate, Lookup(params, "emailjs_template"), Lookup(storage, "emailjs_template_id"));
    }

    /** Method 1 of `loadEmailJSConfig`: the build-time globals that are defined. */
    method LoadGlobals(key: Option<string>, service: Option<string>, template: Option<string>)
      modifies this`publicKey, this`serviceId, this`templateId
      ensures publicKey == IfDefined(old(publicKey), key)
      ensures serviceId == IfDefined(old(serviceId), service)
      ensures templateId == IfDefined(old(templateId), template)
    {
      if key.Some? { publicKey := key; }
      if service.Some? { serviceId := service; }
      if template.Some? { templateId := template; }
    }

    /** Methods 2 and 3 of `loadEmailJSConfig`: the URL parameters, then the stored values,
        each only when truthy. */
    method LoadTruthy(key: Option<string>, service: Option<string>, template: Option<string>)
      modifies this`publicKey, this`serviceId, this`templateId
      ensures publicKey == IfPresent(old(publicKey), key)
      ensures serviceId == IfPresent(old(serviceId), service)
      ensures templateId == IfPresent(old(templateId), template)
    {
      if Present(key) { publicKey := key; }
      if Present(service) { serviceId := service; }
      if Present(template) { templateId := template; }
    }

    /** `isEmailJSConfigured`: all three credentials are non-empty. */
    predicate IsConfigured()
      reads this
    {
      Present(publicKey) && Present(serviceId) && Present(templateId)
    }
  }

  /** Some source gives the credential a non-empty value: a truthy stored value or URL
      parameter, else a defined global (even an empty one hides the current value), else
      the current value. */
  predicate Supplied(current: Option<string>, global: Option<string>, url: Option<string>, stored: Option<string>)
  {
    Present(stored) || Present(url) || (if global.Some? then Present(global) else Present(current))
  }

  /** A credential is set after loading exactly when some source supplies it; in particular
      a stored credential always wins. */
  lemma StoredCredentialsConfigure(current: Option<string>, global: Option<string>, url: Option<string>, stored: Option<string>)
    ensures Present(Override(current, global, url, stored)) <==> Supplied(current, global, url, stored)
    ensures Present(stored) ==> Override(current, global, url, stored) == stored
    ensures global == Some("") && !Present(url) && !Present(stored) ==> !Present(Override(current, global, url, stored))
  {
  }

  // ---------------------------------------------------------------------------
  // The limiter object

  /** `window.BlacklodgeRateLimiter`: the configuration whose limits it reads on every
      call, and the localStorage entry it owns. */
  class RateLimiter {
    const config: Config
    /** The parsed `blacklodge_form_submissions` entry; `None` when absent or empty. */
    var stored: Option<seq<int>>

    constructor (config: Config, stored: Option<seq<int>>)
      ensures this.config == config && this.stored == stored
    {
      this.config := config;
      this.stored := stored;
    }

    /** `getSubmissions`. */
    function GetSubmissions(): seq<int>
      reads this
    {
      Submissions(stored)
    }

    /** `canSubmit()` at time `now`, under the limits configured at that moment: allowed
        exactly when limiting is off, or fewer than `maxSubmissions` submissions fall in the
        last hour and none of those is younger than the cooldown. */
    function CanSubmitAt(now: int): (r: bool)
      reads this, config
      ensures var rl := config.rateLimiting;
              r <==> !rl.enabled ||
                       (|Recent(GetSubmissions(), now)| < rl.maxSubmissions &&
                        forall t :: t in GetSubmissions() && now - t < OneHour ==> now - t >= CooldownMillis(rl))
    {
      CanSubmitIff(config.rateLimiting, GetSubmissions(), now);
      CanSubmit(config.rateLimiting, GetSubmissions(), now)
    }

    /** `recordSubmission()` at time `now`: the list grows by `now`, nothing is pruned. */
    method RecordSubmission(now: int)
      modifies this`stored
      ensures stored == Some(old(GetSubmissions()) + [now])
      ensures |GetSubmissions()| == |old(GetSubmissions())| + 1
      ensures GetSubmissions()[..|GetSubmissions()| - 1] == old(GetSubmissions())
    {
      var submissions := GetSubmissions();
      submissions := submissions + [now];
      stored := Some(submissions);
    }

    /** `getNextAllowedTime()`: `null` without submissions, otherwise the cooldown added to
        the latest recorded submission. */
    function GetNextAllowedTime(): (r: Option<int>)
      reads this, config
      ensures GetSubmissions() == [] <==> r.None?
      ensures r.Some? ==> exists t :: t in GetSubmissions() && r.value == t + CooldownMillis(config.rateLimiting)
      ensures r.Some? ==> forall t :: t in GetSubmissions() ==> t + CooldownMillis(config.rateLimiting) <= r.value
    {
      NextAllowedTime(config.rateLimiting, GetSubmissions())
    }
  }
}
