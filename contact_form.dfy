/** The contact form's submit handler: the fold of the form entries into a data record, the
    ordered spam and validation gate, the e-mail pattern, the template parameters handed to
    the mail relay, and the button, reset and rate-limit bookkeeping around the send. */
module ContactForm {
  import opened Common
  import EmailJS

  /** The form entry that collects the selected services. */
  const ServicesEntry: string := "services[]"
  /** The data property the collected services are stored under. */
  const ServicesKey: string := "services"

  /** `data.services`: a list collected from `services[]` entries, or the text of a plain
      `services` entry that overwrote it. */
  datatype Services = ServiceList(items: seq<string>) | ServiceText(text: string)

  /** The `data` object built from the form: every other property is a string. */
  datatype FormData = FormData(fields: map<string, string>, services: Option<Services>)

  /** `data.services` is truthy: a list always, a text when non-empty. */
  predicate ServicesSet(s: Option<Services>)
  {
    s.Some? && (s.value.ServiceList? || s.value.text != "")
  }

  /** One iteration of the entry loop; `None` when `data.services.push` throws because a
      plain `services` entry left a non-empty text there. */
  function AddEntry(data: FormData, key: string, value: string): Option<FormData>
  {
    if key == ServicesEntry then
      if !ServicesSet(data.services) then Some(data.(services := Some(ServiceList([value]))))
      else if data.services.value.ServiceList? then
        Some(data.(services := Some(ServiceList(data.services.value.items + [value]))))
      else None
    else if key == ServicesKey then Some(data.(services := Some(ServiceText(value))))
    else Some(data.(fields := data.fields[key := value]))
  }

  /** The fold of the whole entry list, in order. */
  function Fold(entries: seq<(string, string)>): Option<FormData>
    decreases |entries|
  {
    if entries == [] then Some(FormData(map[], None))
    else
      var prev := Fold(entries[..|entries| - 1]);
      if prev.None? then None
      else AddEntry(prev.value, entries[|entries| - 1].0, entries[|entries| - 1].1)
  }

  /** The value of the last entry named `key`, if any. */
  function LastValue(entries: seq<(string, string)>, key: string): (r: Option<string>)
    ensures r.Some? ==> exists i :: 0 <= i < |entries| && entries[i] == (key, r.value)
    ensures r.None? <==> forall i :: 0 <= i < |entries| ==> entries[i].0 != key
    decreases |entries|
  {
    if entries == [] then None
    else if entries[|entries| - 1].0 == key then Some(entries[|entries| - 1].1)
    else
      var r := LastValue(entries[..|entries| - 1], key);
      assert forall i :: 0 <= i < |entries| - 1 ==> entries[..|entries| - 1][i] == entries[i];
      r
  }

  /** The values of the `services[]` entries, in form order. */
  function ServiceValues(entries: seq<(string, string)>): (r: seq<string>)
    ensures |r| <= |entries|
    decreases |entries|
  {
    if entries == [] then []
    else
      var rest := ServiceValues(entries[..|entries| - 1]);
      if entries[|entries| - 1].0 == ServicesEntry then rest + [entries[|entries| - 1].1] else rest
  }

  /** The entry loop of the submit handler. */
  method CollectFormData(entries: seq<(string, string)>) returns (data: Option<FormData>)
    ensures data == Fold(entries)
  {
    var d := FormData(map[], None);
    var i := 0;
    while i < |entries|
      invariant 0 <= i <= |entries|
      invariant Fold(entries[..i]) == Some(d)
    {
      var (key, value) := entries[i];
      assert entries[..i + 1][..i] == entries[..i];
      assert entries[..i + 1][i] == (key, value);
      ghost var next := AddEntry(d, key, value);
      assert Fold(entries[..i + 1]) == next;
      if key == ServicesEntry {
        if !ServicesSet(d.services) {
          d := d.(services := Some(ServiceList([])));
          assert [] + [value] == [value];
        }
        if d.services.value.ServiceText? {
          // `push` is not a function on a string: the handler throws here.
          FoldStaysFailed(entries, i + 1);
          return None;
        }
        d := d.(services := Some(ServiceList(d.services.value.items + [value])));
      } else if key == ServicesKey {
        d := d.(services := Some(ServiceText(value)));
      } else {
        d := d.(fields := d.fields[key := value]);
      }
      assert next == Some(d);
      i := i + 1;
    }
    assert entries[..i] == entries;
    data := Some(d);
  }

  /** Once the fold has thrown, the rest of the entries cannot repair it. */
  lemma {:induction false} FoldStaysFailed(entries: seq<(string, string)>, n: int)
    requires 0 <= n <= |entries|
    requires Fold(entries[..n]).None?
    ensures Fold(entries).None?
    decreases |entries| - n
  {
    if n < |entries| {
      assert entries[..n + 1][..n] == entries[..n];
      FoldStaysFailed(entries, n + 1);
    } else {
      assert entries[..n] == entries;
    }
  }

  /** For every property other than `services`, the last entry with that name wins, and the
      `services[]` entry name never becomes a property. */
  lemma {:induction false} FoldLastWins(entries: seq<(string, string)>)
    requires Fold(entries).Some?
    ensures ServicesEntry !in Fold(entries).value.fields && ServicesKey !in Fold(entries).value.fields
    ensures forall key :: key != ServicesEntry && key != ServicesKey ==>
              Lookup(Fold(entries).value.fields, key) == LastValue(entries, key)
    decreases |entries|
  {
    if entries != [] {
      FoldLastWins(entries[..|entries| - 1]);
    }
  }

  /** Without a plain `services` entry the fold never throws, and `services` holds exactly the
      `services[]` values in form order, or is absent when there are none. */
  lemma {:induction false} FoldCollectsServices(entries: seq<(string, string)>)
    requires forall i :: 0 <= i < |entries| ==> entries[i].0 != ServicesKey
    ensures Fold(entries).Some?
    ensures ServiceValues(entries) == [] ==> Fold(entries).value.services.None?
    ensures ServiceValues(entries) != [] ==> Fold(entries).value.services == Some(ServiceList(ServiceValues(entries)))
    decreases |entries|
  {
    if entries != [] {
      var init := entries[..|entries| - 1];
      var (key, value) := entries[|entries| - 1];
      assert forall i :: 0 <= i < |init| ==> init[i] == entries[i];
      FoldCollectsServices(init);
      var prev := Fold(init).value;
      if key == ServicesEntry {
        assert ServiceValues(entries) == ServiceValues(init) + [value];
        if ServiceValues(init) == [] {
          assert ServiceValues(entries) == [value];
          assert Fold(entries) == Some(prev.(services := Some(ServiceList([value]))));
        } else {
          assert Fold(entries) == Some(prev.(services := Some(ServiceList(ServiceValues(init) + [value]))));
        }
      } else {
        assert key != ServicesKey;
        assert ServiceValues(entries) == ServiceValues(init);
        assert Fold(entries) == Some(prev.(fields := prev.fields[key := value]));
      }
    }
  }

  // ---------------------------------------------------------------------------
  // The e-mail pattern `^[^\s@]+@[^\s@]+\.[^\s@]+$`

  /** A character of `[^\s@]`. */
  predicate WordChar(c: char)
  {
    !IsJsSpace(c) && c != '@'
  }

  /** A non-empty run of `[^\s@]`. */
  predicate Word(x: string)
  {
    |x| > 0 && forall j :: 0 <= j < |x| ==> WordChar(x[j])
  }

  /** The language of the pattern: three words joined by `@` and `.`. */
  ghost predicate MatchesEmailPattern(s: string)
  {
    exists a, b, c :: Word(a) && Word(b) && Word(c) && s == a + "@" + b + "." + c
  }

  /** The email test as the handler's regular expression performs it, written over positions: an
      `@` after a clean local part, then a clean domain with a `.` strictly inside it. */
  predicate IsValidEmail(s: string)
  {
    exists i :: 0 < i < |s| && s[i] == '@' && Word(s[..i]) && Word(s[i + 1..]) &&
      exists k :: i + 1 < k < |s| - 1 && s[k] == '.'
  }

  /** Every string the position check accepts matches the pattern. */
  lemma EmailCheckSound(s: string)
    requires IsValidEmail(s)
    ensures MatchesEmailPattern(s)
  {
    var i :| 0 < i < |s| && s[i] == '@' && Word(s[..i]) && Word(s[i + 1..]) &&
      exists k :: i + 1 < k < |s| - 1 && s[k] == '.';
    var k :| i + 1 < k < |s| - 1 && s[k] == '.';
    var a, b, c := s[..i], s[i + 1..k], s[k + 1..];
    DomainPieces(s, i, k);
    CutAround(s, i, k);
    PatternWitness(s, a, b, c);
  }

  /** The domain after the `@` splits at an inner `.` into two words. */
  lemma DomainPieces(s: string, i: int, k: int)
    requires 0 <= i && i + 1 < k < |s| - 1 && Word(s[i + 1..])
    ensures Word(s[i + 1..k]) && Word(s[k + 1..])
  {
    var d := s[i + 1..];
    WordSlice(d, 0, k - i - 1);
    assert d[0..k - i - 1] == s[i + 1..k];
    WordSlice(d, k - i, |d|);
    assert d[k - i..|d|] == s[k + 1..];
  }

  /** Three words around `@` and `.` are a match. */
  lemma PatternWitness(s: string, a: string, b: string, c: string)
    requires Word(a) && Word(b) && Word(c) && s == a + "@" + b + "." + c
    ensures MatchesEmailPattern(s)
  {
  }

  /** A string cut at an `@` and a later `.`. */
  lemma CutAround(s: string, i: int, k: int)
    requires 0 <= i < k < |s| && s[i] == '@' && s[k] == '.'
    ensures s == s[..i] + "@" + s[i + 1..k] + "." + s[k + 1..]
  {
    assert s == s[..i] + s[i..];
    assert s[i..] == "@" + s[i + 1..];
    assert s[i + 1..] == s[i + 1..k] + s[k..];
    assert s[k..] == "." + s[k + 1..];
  }

  /** A non-empty slice of a word is a word. */
  lemma WordSlice(x: string, lo: int, hi: int)
    requires Word(x) && 0 <= lo < hi <= |x|
    ensures Word(x[lo..hi])
  {
    assert forall j :: 0 <= j < hi - lo ==> x[lo..hi][j] == x[lo + j];
  }

  /** Every string of the pattern passes the position check. */
  lemma EmailCheckComplete(s: string)
    requires MatchesEmailPattern(s)
    ensures IsValidEmail(s)
  {
    var a, b, c :| Word(a) && Word(b) && Word(c) && s == a + "@" + b + "." + c;
    var i := |a|;
    var k := |a| + 1 + |b|;
    assert s[..i] == a;
    assert s[i] == '@' && s[k] == '.';
    var d := s[i + 1..];
    assert d == b + "." + c;
    WordDotWord(b, c);
    assert i + 1 < k < |s| - 1;
  }

  /** Two words joined by a dot form a word. */
  lemma WordDotWord(b: string, c: string)
    requires Word(b) && Word(c)
    ensures Word(b + "." + c)
  {
    var d := b + "." + c;
    forall j | 0 <= j < |d| ensures WordChar(d[j]) {
      if j < |b| {
        assert d[j] == b[j];
      } else if j > |b| {
        assert d[j] == c[j - |b| - 1];
      }
    }
  }

  /** The position form accepts exactly the strings of the pattern. */
  lemma EmailCheckIsPattern(s: string)
    ensures IsValidEmail(s) <==> MatchesEmailPattern(s)
  {
    if IsValidEmail(s) { EmailCheckSound(s); }
    if MatchesEmailPattern(s) { EmailCheckComplete(s); }
  }

  /** A valid address has exactly one `@`: the local part and the domain are both free of it. */
  lemma EmailSingleAt(s: string, i: int, j: int)
    requires IsValidEmail(s)
    requires 0 <= i < |s| && 0 <= j < |s| && s[i] == '@' && s[j] == '@'
    ensures i == j
  {
    var p :| 0 < p < |s| && s[p] == '@' && Word(s[..p]) && Word(s[p + 1..]) &&
      exists k :: p + 1 < k < |s| - 1 && s[k] == '.';
    AtOnlyAt(s, p, i);
    AtOnlyAt(s, p, j);
  }

  lemma AtOnlyAt(s: string, p: int, q: int)
    requires 0 < p < |s| && Word(s[..p]) && Word(s[p + 1..])
    requires 0 <= q < |s| && s[q] == '@'
    ensures q == p
  {
  }

  lemma EmailAccepted()
    ensures IsValidEmail("info@blacklodge.ch")
  {
    var s := "info@blacklodge.ch";
    assert s[4] == '@' && s[15] == '.';
    assert s[..4] == "info";
    assert s[5..] == "blacklodge.ch";
    assert Word("info");
    assert Word("blacklodge.ch");
  }

  lemma EmailWithoutDotRejected()
    ensures !IsValidEmail("info@blacklodge")
  {
    var s := "info@blacklodge";
    forall i | 0 < i < |s| && s[i] == '@' ensures i == 4 {
    }
    forall k | 5 < k < |s| - 1 ensures s[k] != '.' {
    }
  }

  lemma EmailWithSpaceRejected()
    ensures !IsValidEmail("in fo@blacklodge.ch")
  {
    var s := "in fo@blacklodge.ch";
    assert s[1] != '@' && s[2] != '@';
    assert !WordChar(' ');
    forall i | 2 < i < |s| ensures !Word(s[..i]) {
      assert s[..i][2] == ' ';
    }
  }

  // ---------------------------------------------------------------------------
  // Template parameters

  const NotGiven: string := "Nicht angegeben"
  const NoServices: string := "Keine ausgewählt"
  const NoMessage: string := "Keine zusätzlichen Informationen"

  /** The parameters `sendViaEmailJS` hands to the relay. */
  datatype TemplateParams = TemplateParams(
    fromName: string, fromEmail: string, phone: string, eventType: string, eventDate: string,
    location: string, guests: string, services: string, budget: string, message: string,
    replyTo: string)

  /** A property inside a template literal: a missing one prints as `undefined`. */
  function Interpolated(v: Option<string>): string
  {
    if v.Some? then v.value else "undefined"
  }

  /** `data[key] || fallback`. */
  function OrDefault(fields: map<string, string>, key: string, fallback: string): (r: string)
    ensures fallback != "" ==> r != ""
    ensures Present(Lookup(fields, key)) ==> r == fields[key]
    ensures !Present(Lookup(fields, key)) ==> r == fallback
  {
    if Present(Lookup(fields, key)) then fields[key] else fallback
  }

  /** `data.services ? data.services.join(', ') : 'Keine ausgewählt'`; `None` when `join`
      is called on a text and throws. */
  function ServicesLine(s: Option<Services>): Option<string>
  {
    if !ServicesSet(s) then Some(NoServices)
    else if s.value.ServiceList? then Some(Join(s.value.items, ", "))
    else None
  }

  /** The template parameters of `sendViaEmailJS`, or `None` when building them throws. */
  function BuildTemplateParams(data: FormData): Option<TemplateParams>
  {
    var services := ServicesLine(data.services);
    if services.None? then None
    else
      var f := data.fields;
      Some(TemplateParams(
        Interpolated(Lookup(f, "vorname")) + " " + Interpolated(Lookup(f, "nachname")),
        Interpolated(Lookup(f, "email")),
        OrDefault(f, "phone", NotGiven),
        OrDefault(f, "event_type", NotGiven),
        OrDefault(f, "event_date", NotGiven),
        OrDefault(f, "location", NotGiven),
        OrDefault(f, "guests", NotGiven),
        services.value,
        OrDefault(f, "budget", NotGiven),
        OrDefault(f, "message", NoMessage),
        Interpolated(Lookup(f, "email"))))
  }

  /** What the relay receives: the sender's name is first and last name, the reply address
      is the sender's address, no optional field is ever blank, and building only fails on a
      text `services` value. */
  lemma TemplateParamsShape(data: FormData)
    ensures BuildTemplateParams(data).None? <==> data.services.Some? && data.services.value.ServiceText? && data.services.value.text != ""
    ensures var p := BuildTemplateParams(data);
            var f := data.fields;
            p.Some? && "vorname" in f && "nachname" in f && "email" in f ==>
              && p.value.fromName == f["vorname"] + " " + f["nachname"]
              && p.value.fromEmail == f["email"] && p.value.replyTo == f["email"]
    ensures var p := BuildTemplateParams(data);
            p.Some? ==>
              && p.value.phone != "" && p.value.eventType != "" && p.value.eventDate != ""
              && p.value.location != "" && p.value.guests != "" && p.value.budget != ""
              && p.value.message != ""
    ensures var p := BuildTemplateParams(data);
            p.Some? && !ServicesSet(data.services) ==> p.value.services == NoServices
    ensures var p := BuildTemplateParams(data);
            p.Some? && !Present(Lookup(data.fields, "message")) ==> p.value.message == NoMessage
  {
  }

  /** Each relayed field is the form's value when that is non-empty and the fixed fallback
      otherwise, and a list of services arrives joined with `, `. */
  lemma TemplateFieldsCarried(data: FormData)
    ensures var p := BuildTemplateParams(data);
            var f := data.fields;
            p.Some? ==>
              && p.value.phone == (if Present(Lookup(f, "phone")) then f["phone"] else NotGiven)
              && p.value.eventType == (if Present(Lookup(f, "event_type")) then f["event_type"] else NotGiven)
              && p.value.eventDate == (if Present(Lookup(f, "event_date")) then f["event_date"] else NotGiven)
              && p.value.location == (if Present(Lookup(f, "location")) then f["location"] else NotGiven)
              && p.value.guests == (if Present(Lookup(f, "guests")) then f["guests"] else NotGiven)
              && p.value.budget == (if Present(Lookup(f, "budget")) then f["budget"] else NotGiven)
              && p.value.message == (if Present(Lookup(f, "message")) then f["message"] else NoMessage)
    ensures var p := BuildTemplateParams(data);
            p.Some? && ServicesSet(data.services) && data.services.value.ServiceList? ==>
              p.value.services == Join(data.services.value.items, ", ")
  {
  }

  /** Every selected service is named in the services line. */
  lemma {:induction false} JoinMentionsEach(items: seq<string>, sep: string, x: string)
    requires x in items
    ensures Contains(Join(items, sep), x)
    decreases |items|
  {
    if |items| == 1 {
      assert x == items[0];
      ContainsIff(x, x);
      assert x[0..|x|] == x;
      assert OccursAt(x, x, 0);
    } else if x == items[0] {
      ContainsIff(x, x);
      assert x[0..|x|] == x;
      assert OccursAt(x, x, 0);
      ContainsInfix([], x, sep + Join(items[1..], sep), x);
      assert [] + x + (sep + Join(items[1..], sep)) == Join(items, sep);
    } else {
      assert x in items[1..];
      JoinMentionsEach(items[1..], sep, x);
      ContainsInfix(items[0] + sep, Join(items[1..], sep), [], x);
      assert items[0] + sep + Join(items[1..], sep) + [] == Join(items, sep);
    }
  }

  lemma ServicesLineMentionsEach(items: seq<string>, x: string)
    requires x in items
    ensures ServicesLine(Some(ServiceList(items))).Some?
    ensures Contains(ServicesLine(Some(ServiceList(items))).value, x)
  {
    JoinMentionsEach(items, ", ", x);
  }

  /** A value is among the services collected exactly when some `services[]` entry carries it. */
  lemma {:induction false} ServiceValuesMembers(entries: seq<(string, string)>, x: string)
    ensures x in ServiceValues(entries) <==> exists i :: 0 <= i < |entries| && entries[i] == (ServicesEntry, x)
    decreases |entries|
  {
    if entries != [] {
      var init := entries[..|entries| - 1];
      ServiceValuesMembers(init, x);
      assert forall i :: 0 <= i < |init| ==> init[i] == entries[i];
      if exists i :: 0 <= i < |entries| && entries[i] == (ServicesEntry, x) {
        var i :| 0 <= i < |entries| && entries[i] == (ServicesEntry, x);
        if i < |init| {
          assert init[i] == (ServicesEntry, x);
        }
      }
    }
  }

  /** From the form to the relay: without a plain `services` entry the parameters are always
      built, each ticked service is named in the services line (or the line says none was
      chosen), and an optional field carries its last non-empty entry or the fallback. */
  lemma FormReachesRelay(entries: seq<(string, string)>, x: string)
    requires forall i :: 0 <= i < |entries| ==> entries[i].0 != ServicesKey
    ensures Fold(entries).Some? && BuildTemplateParams(Fold(entries).value).Some?
    ensures var p := BuildTemplateParams(Fold(entries).value).value;
            && ((exists i :: 0 <= i < |entries| && entries[i] == (ServicesEntry, x)) ==> Contains(p.services, x))
            && ((forall i :: 0 <= i < |entries| ==> entries[i].0 != ServicesEntry) ==> p.services == NoServices)
            && p.phone == (if Present(LastValue(entries, "phone")) then LastValue(entries, "phone").value else NotGiven)
            && p.message == (if Present(LastValue(entries, "message")) then LastValue(entries, "message").value else NoMessage)
  {
    FoldCollectsServices(entries);
    var data := Fold(entries).value;
    var p := BuildTemplateParams(data);
    assert p.Some? by { TemplateParamsShape(data); }
    TemplateFieldsCarried(data);
    assert Lookup(data.fields, "phone") == LastValue(entries, "phone") && Lookup(data.fields, "message") == LastValue(entries, "message") by {
      FoldLastWins(entries);
    }
    assert p.value.phone == (if Present(Lookup(data.fields, "phone")) then data.fields["phone"] else NotGiven);
    assert p.value.message == (if Present(Lookup(data.fields, "message")) then data.fields["message"] else NoMessage);
    if exists i :: 0 <= i < |entries| && entries[i] == (ServicesEntry, x) {
      ServiceValuesMembers(entries, x);
      JoinMentionsEach(ServiceValues(entries), ", ", x);
    }
    if forall i :: 0 <= i < |entries| ==> entries[i].0 != ServicesEntry {
      if ServiceValues(entries) != [] {
        var v := ServiceValues(entries)[0];
        ServiceValuesMembers(entries, v);
      }
    }
  }

  // ---------------------------------------------------------------------------
  // The gate

  /** The relay used: EmailJS when its script is loaded and a service id is configured,
      the Formspree endpoint otherwise. */
  datatype Channel = EmailJSRelay | Formspree

  function ChannelFor(emailjsLoaded: bool, serviceId: Option<string>): Channel
  {
    if emailjsLoaded && Present(serviceId) then EmailJSRelay else Formspree
  }

  /** How one submission ends. `Crashed` is a `TypeError` while collecting the entries. */
  datatype Outcome =
    | Crashed
    | Spam
    | RateLimited
    | MissingFields
    | NoConsent
    | InvalidEmail
    | Failed(channel: Channel)
    | Sent(channel: Channel, params: TemplateParams)

  /** The honeypot `website_url` holds something other than white space. */
  predicate HoneypotFilled(data: FormData)
  {
    Present(Lookup(data.fields, EmailJS.HoneypotField)) && Trim(data.fields[EmailJS.HoneypotField]) != ""
  }

  predicate RequiredPresent(data: FormData)
  {
    Present(Lookup(data.fields, "vorname")) && Present(Lookup(data.fields, "nachname")) && Present(Lookup(data.fields, "email"))
  }

  predicate ConsentGiven(data: FormData)
  {
    Present(Lookup(data.fields, "datenschutz"))
  }

  /** The outcome of a submission: the validations in their fixed order, where `allowed` is the
      rate limiter's verdict and `accepted` whether the relay took the message. */
  function Decide(entries: seq<(string, string)>, allowed: bool, channel: Channel, accepted: bool): Outcome
  {
    var folded := Fold(entries);
    if folded.None? then Crashed
    else
      var data := folded.value;
      if HoneypotFilled(data) then Spam
      else if !allowed then RateLimited
      else if !RequiredPresent(data) then MissingFields
      else if !ConsentGiven(data) then NoConsent
      else if !IsValidEmail(data.fields["email"]) then InvalidEmail
      else
        var params := BuildTemplateParams(data);
        if params.Some? && accepted then Sent(channel, params.value) else Failed(channel)
  }

  /** A message goes out exactly when every check passes in turn and the relay accepts it,
      and what goes out is the template built from the form. */
  lemma SentIff(entries: seq<(string, string)>, allowed: bool, channel: Channel, accepted: bool)
    ensures Decide(entries, allowed, channel, accepted).Sent? <==>
              && Fold(entries).Some?
              && !HoneypotFilled(Fold(entries).value)
              && allowed
              && RequiredPresent(Fold(entries).value)
              && ConsentGiven(Fold(entries).value)
              && MatchesEmailPattern(Fold(entries).value.fields["email"])
              && BuildTemplateParams(Fold(entries).value).Some?
              && accepted
    ensures Decide(entries, allowed, channel, accepted).Sent? ==>
              Decide(entries, allowed, channel, accepted) == Sent(channel, BuildTemplateParams(Fold(entries).value).value)
  {
    var folded := Fold(entries);
    if folded.Some? && RequiredPresent(folded.value) {
      EmailCheckIsPattern(folded.value.fields["email"]);
    }
  }

  /** The honeypot is checked first: a filled trap ends the submission as spam whatever the
      limiter, the other fields and the relay would say. */
  lemma HoneypotFirst(entries: seq<(string, string)>, allowed: bool, channel: Channel, accepted: bool)
    requires Fold(entries).Some? && HoneypotFilled(Fold(entries).value)
    ensures Decide(entries, allowed, channel, accepted) == Spam
  {
  }

  /** A refusing limiter stops every submission that is not spam, before any field is read. */
  lemma RateLimitSecond(entries: seq<(string, string)>, channel: Channel, accepted: bool)
    requires Fold(entries).Some? && !HoneypotFilled(Fold(entries).value)
    ensures Decide(entries, false, channel, accepted) == RateLimited
  {
  }

  /** A white-space-only honeypot is not spam. */
  lemma BlankHoneypotPasses(data: FormData)
    requires EmailJS.HoneypotField in data.fields
    requires forall i :: 0 <= i < |data.fields[EmailJS.HoneypotField]| ==> IsJsSpace(data.fields[EmailJS.HoneypotField][i])
    ensures !HoneypotFilled(data)
  {
    TrimInfix(data.fields[EmailJS.HoneypotField]);
  }

  // ---------------------------------------------------------------------------
  // The form

  /** The contact form on the page: its submit button and what has left it. */
  class Form {
    var buttonText: string
    var buttonDisabled: bool
    /** How many times `contactForm.reset()` ran. */
    var resets: nat
    /** The messages a relay accepted, with the relay. */
    var delivered: seq<(Channel, TemplateParams)>

    constructor (buttonText: string)
      ensures this.buttonText == buttonText && !buttonDisabled && resets == 0 && delivered == []
    {
      this.buttonText := buttonText;
      buttonDisabled := false;
      resets := 0;
      delivered := [];
    }

    /** The submit handler. `limiter` is `window.BlacklodgeRateLimiter` (`null` when absent),
        `now` the clock when the limit is checked and `sentAt` the clock once the awaited
        send has returned, both in milliseconds, `emailjsLoaded` whether the EmailJS script
        is on the page and `accepted` whether the relay answers with success. */
    method Submit(entries: seq<(string, string)>, limiter: EmailJS.RateLimiter?, now: int, sentAt: int,
                  config: EmailJS.Config, emailjsLoaded: bool, accepted: bool) returns (outcome: Outcome)
      modifies this, limiter
      ensures outcome == Decide(entries, limiter == null || old(limiter.CanSubmitAt(now)),
                                ChannelFor(emailjsLoaded, config.serviceId), accepted)
      ensures limiter != null && outcome.Sent? ==> limiter.stored == Some(old(limiter.GetSubmissions()) + [sentAt])
      ensures limiter != null && !outcome.Sent? ==> limiter.stored == old(limiter.stored)
      ensures buttonText == old(buttonText)
      ensures buttonDisabled == if outcome.Sent? || outcome.Failed? then false else old(buttonDisabled)
      ensures resets == old(resets) + if outcome.Spam? || outcome.Sent? then 1 else 0
      ensures delivered == old(delivered) + if outcome.Sent? then [(outcome.channel, outcome.params)] else []
    {
      var folded := CollectFormData(entries);
      if folded.None? {
        return Crashed;
      }
      var data := folded.value;
      if HoneypotFilled(data) {
        resets := resets + 1;
        return Spam;
      }
      if limiter != null && !limiter.CanSubmitAt(now) {
        return RateLimited;
      }
      if !RequiredPresent(data) {
        return MissingFields;
      }
      if !ConsentGiven(data) {
        return NoConsent;
      }
      if !IsValidEmail(data.fields["email"]) {
        return InvalidEmail;
      }
      var originalText := buttonText;
      buttonText := "Wird gesendet...";
      buttonDisabled := true;
      var channel := ChannelFor(emailjsLoaded, config.serviceId);
      var params := BuildTemplateParams(data);
      if params.Some? && accepted {
        delivered := delivered + [(channel, params.value)];
        if limiter != null {
          limiter.RecordSubmission(sentAt);
        }
        resets := resets + 1;
        outcome := Sent(channel, params.value);
      } else {
        outcome := Failed(channel);
      }
      // `finally`: the button comes back in both cases.
      buttonText := originalText;
      buttonDisabled := false;
    }
  }
}
