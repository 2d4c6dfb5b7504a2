/** Alert texts and alert profiles: template rendering, layering a profile over the base style, validation and
    resolution for one alert. A Go string is a string of bytes here. */
module AlertText {
  import opened Template
  import opened Wrappers

  // ---------- alerts and templates ----------

  /** An event's value: its amount as FormatFloat prints it, and its display text. */
  datatype Value = Value(count: string, displayText: string)

  datatype Alert = Alert(
    userName: string, value: Option<Value>, message: string, imageURL: string, soundURL: string, text: string)

  lemma DifferInSecond(p: string, q: string)
    requires 2 <= |p| && 2 <= |q| && p[1] != q[1]
    ensures !StartsWith(p, q)
  {
  }

  function AlertSlots(): (slots: Slots)
    ensures |slots| == 4
  {
    var slots := ["{username}", "{amount}", "{count}", "{message}"];
    SecondsDiffer(slots);
    slots
  }

  lemma SecondsDiffer(slots: seq<string>)
    requires slots == ["{username}", "{amount}", "{count}", "{message}"]
    ensures AreSlots(slots)
  {
    assert slots[0][1] == 'u' && slots[1][1] == 'a' && slots[2][1] == 'c' && slots[3][1] == 'm';
    forall i, j | 0 <= i < 4 && 0 <= j < 4 && i != j ensures !StartsWith(slots[i], slots[j]) {
      DifferInSecond(slots[i], slots[j]);
    }
  }

  /** What the alert has for each slot: an empty text is nothing, a count is there whenever a value is. */
  function ValuesOf(a: Alert): (values: Values)
    ensures |values| == 4
  {
    [if a.userName == "" then None else Some(a.userName),
     if a.value.None? || a.value.value.displayText == "" then None else Some(a.value.value.displayText),
     if a.value.None? then None else Some(a.value.value.count),
     if a.message == "" then None else Some(a.message)]
  }

  /** The text of an alert: the pairs of the fields it has, replaced in one pass over the template. */
  method RenderText(template: string, a: Alert) returns (text: string)
    ensures text == TextFor(a, template)
  {
    var pairs: seq<Pair> := [];
    if a.userName != "" {
      pairs := pairs + [Pair("{username}", a.userName)];
    }
    ghost var v := ValuesOf(a);
    assert pairs == Offered(0, v[0]);
    if a.value.Some? {
      if a.value.value.displayText != "" {
        pairs := pairs + [Pair("{amount}", a.value.value.displayText)];
      }
      pairs := pairs + [Pair("{count}", a.value.value.count)];
    }
    assert pairs == Offered(0, v[0]) + Offered(1, v[1]) + Offered(2, v[2]);
    if a.message != "" {
      pairs := pairs + [Pair("{message}", a.message)];
    }
    PairsOf(a);
    assert pairs == Pairs(AlertSlots(), v);
    PairsAreReplaceable(AlertSlots(), v, 0);
    ReplaceIsRendered(AlertSlots(), v, template);
    if |pairs| == 0 {
      ReplaceNothing(template);
      return template;
    }
    text := Replace(pairs, template);
  }

  function TextFor(a: Alert, template: string): string { Rendered(AlertSlots(), ValuesOf(a), template) }

  /** Each placeholder, wherever it stands, is replaced by its own field of the alert, or stays if the alert has none;
      text without placeholders stays as it is. */
  lemma EachPlaceholder(a: Alert, before: string, after: string)
    ensures TextFor(a, before + "{username}" + after)
         == TextFor(a, before) + (if a.userName == "" then "{username}" else a.userName) + TextFor(a, after)
    ensures TextFor(a, before + "{amount}" + after)
         == TextFor(a, before)
            + (if a.value.None? || a.value.value.displayText == "" then "{amount}" else a.value.value.displayText)
            + TextFor(a, after)
    ensures TextFor(a, before + "{count}" + after)
         == TextFor(a, before) + (if a.value.None? then "{count}" else a.value.value.count) + TextFor(a, after)
    ensures TextFor(a, before + "{message}" + after)
         == TextFor(a, before) + (if a.message == "" then "{message}" else a.message) + TextFor(a, after)
    ensures '{' !in before ==> TextFor(a, before) == before
  {
    var slots, values := AlertSlots(), ValuesOf(a);
    SlotsAreIndependent(slots, values, before, 0, after);
    SlotsAreIndependent(slots, values, before, 1, after);
    SlotsAreIndependent(slots, values, before, 2, after);
    SlotsAreIndependent(slots, values, before, 3, after);
    if '{' !in before {
      PlainTextStays(slots, values, before);
    }
  }

  lemma PlainTextStays(slots: Slots, values: Values, s: string)
    requires |slots| == |values| && '{' !in s
    ensures Rendered(slots, values, s) == s
  {
    PairsAreReplaceable(slots, values, 0);
    ReplaceIsRendered(slots, values, s);
    ReplaceSkips(slots, values, s, "");
    assert s + "" == s;
  }

  function Offered(i: nat, value: Option<string>): seq<Pair>
    requires i < |AlertSlots()|
  {
    if value.None? then [] else [Pair(AlertSlots()[i], value.value)]
  }

  lemma PairsOf(a: Alert)
    ensures var v := ValuesOf(a);
            Pairs(AlertSlots(), v) == Offered(0, v[0]) + Offered(1, v[1]) + Offered(2, v[2]) + Offered(3, v[3])
  {
  }

  // ---------- profiles ----------

  datatype Profile = Profile(
    eventType: string, textTemplate: string, soundURL: string, imageURL: string, durationMs: int, volume: int,
    enabled: bool, sortAfter: int, customHTML: string, customCSS: string, customJS: string)

  const ALL_EVENTS := "all"
  const MAX_TEMPLATE_LEN: nat := 500
  const MAX_CUSTOM_CODE_LEN: nat := 64 * 1024

  const EVENT_TYPES: seq<string> := [
    "subscription", "resubscription", "gift_subscription", "mystery_gift", "bits", "raid", "follow",
    "channel_points", "charity_donation", "super_chat", "super_sticker", "new_sponsor", "member_milestone",
    "membership_gift", "subscriber", "gift", "share", "tiktok_subscription", "power_up", "gift_received",
    "chat_command"]

  predicate IsKnownEventType(eventType: string) { eventType in EVENT_TYPES || eventType == ALL_EVENTS }

  predicate NoCode(p: Profile) { p.customHTML == "" && p.customCSS == "" && p.customJS == "" }

  function ApplyBase(p: Profile, saved: bool, base: Profile): Profile {
    var timed := if saved then p else p.(durationMs := base.durationMs, volume := base.volume);
    var pictured := if p.imageURL == "" then timed.(imageURL := base.imageURL) else timed;
    var sounding := if p.soundURL == "" then pictured.(soundURL := base.soundURL) else pictured;
    var coded :=
      if NoCode(p) then
        sounding.(customHTML := base.customHTML, customCSS := base.customCSS, customJS := base.customJS)
      else sounding;
    coded.(enabled := p.enabled && base.enabled)
  }

  /** A URL the overlay may load; which texts are absolute http(s) URLs is url.Parse's business. */
  type UrlCheck = string -> bool

  predicate CodeFits(p: Profile) {
    |p.customHTML| <= MAX_CUSTOM_CODE_LEN && |p.customCSS| <= MAX_CUSTOM_CODE_LEN && |p.customJS| <= MAX_CUSTOM_CODE_LEN
  }

  predicate Loadable(isWebURL: UrlCheck, raw: string) { raw == "" || isWebURL(raw) }

  predicate Valid(isWebURL: UrlCheck, p: Profile) {
    && IsKnownEventType(p.eventType) && |p.textTemplate| <= MAX_TEMPLATE_LEN && CodeFits(p)
    && 1 <= p.durationMs <= 60000 && 0 <= p.volume <= 100
    && Loadable(isWebURL, p.soundURL) && Loadable(isWebURL, p.imageURL)
  }

  datatype Error =
    | UnknownEventType
    | TemplateTooLong
    | CodeTooLong(field: string)
    | BadDuration
    | BadVolume
    | BadURL(field: string)

  /** The code and URL fields are looked at in no particular order, as Go iterates over a map. */
  method Validate(isWebURL: UrlCheck, p: Profile) returns (error: Option<Error>)
    ensures error.None? <==> Valid(isWebURL, p)
    ensures error.None? <==>
              && (p.eventType == "all" || p.eventType in EVENT_TYPES) && |p.textTemplate| <= 500
              && |p.customHTML| <= 65536 && |p.customCSS| <= 65536 && |p.customJS| <= 65536
              && 1 <= p.durationMs <= 60000 && 0 <= p.volume <= 100
              && (p.soundURL == "" || isWebURL(p.soundURL)) && (p.imageURL == "" || isWebURL(p.imageURL))
    ensures error == Some(CodeTooLong("custom_html")) ==> MAX_CUSTOM_CODE_LEN < |p.customHTML|
    ensures error == Some(CodeTooLong("custom_css")) ==> MAX_CUSTOM_CODE_LEN < |p.customCSS|
    ensures error == Some(CodeTooLong("custom_js")) ==> MAX_CUSTOM_CODE_LEN < |p.customJS|
    ensures error.Some? && error.value.BadURL? ==>
              && CodeFits(p) && error.value.field in {"sound_url", "image_url"}
              && !Loadable(isWebURL, if error.value.field == "sound_url" then p.soundURL else p.imageURL)
    ensures error == Some(UnknownEventType) <==> !IsKnownEventType(p.eventType)
    ensures error == Some(TemplateTooLong) ==> MAX_TEMPLATE_LEN < |p.textTemplate|
    ensures error.Some? && error.value.CodeTooLong? ==>
              error.value.field in {"custom_html", "custom_css", "custom_js"}
    ensures error == Some(BadDuration) ==> p.durationMs < 1 || 60000 < p.durationMs
    ensures error == Some(BadVolume) ==> p.volume < 0 || 100 < p.volume
  {
    if !IsKnownEventType(p.eventType) {
      return Some(UnknownEventType);
    }
    if |p.textTemplate| > MAX_TEMPLATE_LEN {
      return Some(TemplateTooLong);
    }
    if {
      case |p.customHTML| > MAX_CUSTOM_CODE_LEN => return Some(CodeTooLong("custom_html"));
      case |p.customCSS| > MAX_CUSTOM_CODE_LEN => return Some(CodeTooLong("custom_css"));
      case |p.customJS| > MAX_CUSTOM_CODE_LEN => return Some(CodeTooLong("custom_js"));
      case CodeFits(p) =>
    }
    if p.durationMs < 1 || p.durationMs > 60000 {
      return Some(BadDuration);
    }
    if p.volume < 0 || p.volume > 100 {
      return Some(BadVolume);
    }
    if {
      case !Loadable(isWebURL, p.soundURL) => return Some(BadURL("sound_url"));
      case !Loadable(isWebURL, p.imageURL) => return Some(BadURL("image_url"));
      case Loadable(isWebURL, p.soundURL) && Loadable(isWebURL, p.imageURL) =>
    }
    error := None;
  }

  datatype ResolvedProfile = ResolvedProfile(profile: Profile, text: string)

  method Resolve(p: Profile, a: Alert) returns (r: ResolvedProfile)
    ensures r == Resolved(p, a)
    ensures r.profile == p.(imageURL := r.profile.imageURL, soundURL := r.profile.soundURL)
    ensures r.profile.imageURL == (if a.imageURL == "" then p.imageURL else a.imageURL)
    ensures r.profile.soundURL == (if a.soundURL == "" then p.soundURL else a.soundURL)
    ensures r.text == (if a.text == "" then TextFor(a, p.textTemplate) else a.text)
  {
    var q := p;
    if a.imageURL != "" {
      q := q.(imageURL := a.imageURL);
    }
    if a.soundURL != "" {
      q := q.(soundURL := a.soundURL);
    }
    var text := a.text;
    if text == "" {
      text := RenderText(q.textTemplate, a);
    }
    r := ResolvedProfile(q, text);
  }

  function Or(first: string, second: string): string { if first == "" then second else first }

  /** A profile as one alert presents it: each medium and the text come from the alert if it brings its own. */
  function Resolved(p: Profile, a: Alert): ResolvedProfile {
    ResolvedProfile(
      p.(imageURL := Or(a.imageURL, p.imageURL), soundURL := Or(a.soundURL, p.soundURL)),
      Or(a.text, TextFor(a, p.textTemplate)))
  }

  /** Layering over a base again changes nothing, whether the profile counts as saved or not. */
  lemma LayeringIsIdempotent(p: Profile, saved: bool, base: Profile)
    ensures var r := ApplyBase(p, saved, base); ApplyBase(r, saved, base) == r && ApplyBase(r, true, base) == r
  {
  }

  /** Custom code moves as a unit and gives way only if there is none; an image or sound is empty only if both
      are; a base switched off silences the profile; the timing is the profile's own exactly if it was saved or
      the base has the same; event type, template and order are never the base's. */
  lemma LayeringKeepsUnits(p: Profile, saved: bool, base: Profile)
    ensures var r := ApplyBase(p, saved, base);
            && (r.customHTML, r.customCSS, r.customJS)
               == (if p.customHTML == "" && p.customCSS == "" && p.customJS == ""
                   then (base.customHTML, base.customCSS, base.customJS)
                   else (p.customHTML, p.customCSS, p.customJS))
            && r.imageURL == (if p.imageURL == "" then base.imageURL else p.imageURL)
            && r.soundURL == (if p.soundURL == "" then base.soundURL else p.soundURL)
            && (r.enabled <==> p.enabled && base.enabled)
            && (r.durationMs, r.volume) == (if saved then (p.durationMs, p.volume) else (base.durationMs, base.volume))
            && r.eventType == p.eventType && r.textTemplate == p.textTemplate && r.sortAfter == p.sortAfter
  {
  }

  lemma LayeringKeepsValidity(isWebURL: UrlCheck, p: Profile, saved: bool, base: Profile)
    requires Valid(isWebURL, p) && Valid(isWebURL, base)
    ensures Valid(isWebURL, ApplyBase(p, saved, base))
  {
  }

  /** A valid profile stays valid for an alert exactly if the alert's own image and sound are loadable. */
  lemma ResolvedIsValidIffOwnMediaIs(isWebURL: UrlCheck, p: Profile, a: Alert)
    requires Valid(isWebURL, p)
    ensures Valid(isWebURL, Resolved(p, a).profile)
       <==> Loadable(isWebURL, a.imageURL) && Loadable(isWebURL, a.soundURL)
  {
  }
}
