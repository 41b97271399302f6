/**
  The logo fixer of fix_logos.py: a subscription's logo is the logo of the
  first known service, in table order, whose key occurs in the lower-cased
  subscription name, or a default logo; the fixer overwrites every
  subscription's logo that way and counts the ones that changed.
*/
module FixLogos {
  import opened Optional
  import opened Models

  /** The known services and their logos, in the table's order. */
  const ServiceLogos: seq<(string, string)> := [
    ("netflix", "https://upload.wikimedia.org/wikipedia/commons/0/08/Netflix_2015_logo.svg"),
    ("spotify", "https://cdn.jsdelivr.net/gh/devicons/devicon/icons/spotify/spotify-original.svg"),
    ("apple", "https://cdn.jsdelivr.net/gh/devicons/devicon/icons/apple/apple-original.svg"),
    ("apple tv", "https://cdn.jsdelivr.net/gh/devicons/devicon/icons/apple/apple-original.svg"),
    ("apple music", "https://cdn.jsdelivr.net/gh/devicons/devicon/icons/apple/apple-original.svg"),
    ("amazon", "https://cdn.jsdelivr.net/gh/devicons/devicon/icons/amazonwebservices/amazonwebservices-original.svg"),
    ("amazon prime", "https://cdn.jsdelivr.net/gh/devicons/devicon/icons/amazonwebservices/amazonwebservices-original.svg"),
    ("google", "https://cdn.jsdelivr.net/gh/devicons/devicon/icons/google/google-original.svg"),
    ("google one", "https://cdn.jsdelivr.net/gh/devicons/devicon/icons/google/google-original.svg"),
    ("youtube", "https://cdn.jsdelivr.net/gh/devicons/devicon/icons/google/google-original.svg"),
    ("youtube premium", "https://cdn.jsdelivr.net/gh/devicons/devicon/icons/google/google-original.svg"),
    ("github", "https://cdn.jsdelivr.net/gh/devicons/devicon/icons/github/github-original.svg"),
    ("replit", "https://replit.com/public/icons/apple-icon-180.png"),
    ("slack", "https://cdn.jsdelivr.net/gh/devicons/devicon/icons/slack/slack-original.svg"),
    ("microsoft", "https://cdn.jsdelivr.net/gh/devicons/devicon/icons/microsoft/microsoft-original.svg"),
    ("office 365", "https://cdn.jsdelivr.net/gh/devicons/devicon/icons/microsoft/microsoft-original.svg"),
    ("xbox", "https://cdn.jsdelivr.net/gh/devicons/devicon/icons/microsoft/microsoft-original.svg"),
    ("dropbox", "https://cdn.jsdelivr.net/gh/devicons/devicon/icons/dropbox/dropbox-original.svg"),
    ("adobe", "https://cdn.jsdelivr.net/gh/devicons/devicon/icons/adobe/adobe-original.svg"),
    ("photoshop", "https://cdn.jsdelivr.net/gh/devicons/devicon/icons/photoshop/photoshop-plain.svg"),
    ("digitalocean", "https://cdn.jsdelivr.net/gh/devicons/devicon/icons/digitalocean/digitalocean-original.svg"),
    ("hulu", "https://upload.wikimedia.org/wikipedia/commons/e/e4/Hulu_Logo.svg"),
    ("disney+", "https://upload.wikimedia.org/wikipedia/commons/3/3e/Disney%2B_logo.svg"),
    ("twitch", "https://cdn.jsdelivr.net/gh/devicons/devicon/icons/twitch/twitch-original.svg")
  ]

  /** The logo of a service that is not in the table. */
  const DefaultLogo: string := "https://cdn-icons-png.flaticon.com/512/5053/5053352.png"

  function LowerChar(c: char): char {
    if 'A' <= c <= 'Z' then (c as int + 32) as char else c
  }

  /** `s.lower()` on ASCII letters. */
  function ToLower(s: string): (r: string)
    ensures |r| == |s|
    ensures forall i :: 0 <= i < |s| ==> r[i] == LowerChar(s[i])
  {
    if |s| == 0 then [] else [LowerChar(s[0])] + ToLower(s[1..])
  }

  predicate IsPrefix(p: string, s: string) {
    |p| <= |s| && s[..|p|] == p
  }

  /** `needle in hay` for strings: `needle` starts at some position of `hay`. */
  predicate IsSubstring(needle: string, hay: string)
    decreases |hay|
  {
    IsPrefix(needle, hay) || (|hay| > 0 && IsSubstring(needle, hay[1..]))
  }

  /** A non-empty key whose first letter does not occur in `hay` does not occur in it. */
  lemma {:induction false} FirstCharAbsent(needle: string, hay: string)
    requires |needle| > 0
    requires forall k :: 0 <= k < |hay| ==> hay[k] != needle[0]
    ensures !IsSubstring(needle, hay)
    decreases |hay|
  {
    if |needle| <= |hay| {
      assert hay[..|needle|][0] == hay[0];
    }
    if |hay| > 0 {
      FirstCharAbsent(needle, hay[1..]);
    }
  }

  /** The index of the first entry of `entries` whose key occurs in `hay`. */
  function FirstMatch(entries: seq<(string, string)>, hay: string): (r: Option<nat>)
    ensures r.Some? ==> r.value < |entries| && IsSubstring(entries[r.value].0, hay)
    ensures r.Some? ==> forall j :: 0 <= j < r.value ==> !IsSubstring(entries[j].0, hay)
    ensures r.None? <==> forall j :: 0 <= j < |entries| ==> !IsSubstring(entries[j].0, hay)
  {
    if |entries| == 0 then None
    else if IsSubstring(entries[0].0, hay) then Some(0)
    else match FirstMatch(entries[1..], hay)
      case Some(i) => Some(i + 1)
      case None => None
  }

  /** `get_logo_url_for_service(name)`. */
  function LogoUrlForService(name: string): (r: string)
    ensures r == DefaultLogo || exists i :: 0 <= i < |ServiceLogos| && r == ServiceLogos[i].1
  {
    match FirstMatch(ServiceLogos, ToLower(name))
    case Some(i) => ServiceLogos[i].1
    case None => DefaultLogo
  }

  /**
    The logo is that of the first key, in table order, occurring in the
    lower-cased name; with no such key it is the default.
  */
  lemma LogoUrlIsFirstMatch(name: string, i: nat)
    requires i < |ServiceLogos| && IsSubstring(ServiceLogos[i].0, ToLower(name))
    requires forall j :: 0 <= j < i ==> !IsSubstring(ServiceLogos[j].0, ToLower(name))
    ensures LogoUrlForService(name) == ServiceLogos[i].1
  {
    assert FirstMatch(ServiceLogos, ToLower(name)) == Some(i);
  }

  lemma LogoUrlWithoutMatch(name: string)
    requires forall j :: 0 <= j < |ServiceLogos| ==> !IsSubstring(ServiceLogos[j].0, ToLower(name))
    ensures LogoUrlForService(name) == DefaultLogo
  {
  }

  /** Lower-casing is idempotent, so the lookup does not depend on the name's letter case. */
  lemma LogoUrlIgnoresCase(name: string)
    ensures ToLower(ToLower(name)) == ToLower(name)
    ensures LogoUrlForService(ToLower(name)) == LogoUrlForService(name)
  {
    assert ToLower(ToLower(name)) == ToLower(name);
  }

  /** An empty name matches no key and gets the default logo. */
  lemma EmptyNameGetsDefault()
    ensures LogoUrlForService("") == DefaultLogo
  {
    KeysNonEmpty();
    NoKeyInEmptyName(ServiceLogos);
    assert ToLower("") == "";
  }

  lemma KeysNonEmpty()
    ensures forall j :: 0 <= j < |ServiceLogos| ==> |ServiceLogos[j].0| > 0
  {
    var s := ServiceLogos;
    forall j | 0 <= j < |s| ensures |s[j].0| > 0 {
      assert s[j] in s;
    }
  }

  lemma {:induction false} NoKeyInEmptyName(entries: seq<(string, string)>)
    requires forall j :: 0 <= j < |entries| ==> |entries[j].0| > 0
    ensures FirstMatch(entries, "") == None
  {
    if |entries| > 0 {
      NoKeyInEmptyName(entries[1..]);
    }
  }

  /** `needle` occurs in `hay` starting at position `k`. */
  predicate OccursAt(needle: string, hay: string, k: nat) {
    k + |needle| <= |hay| && hay[k..k + |needle|] == needle
  }

  /** An occurrence of `needle` in `hay` starts at some position. */
  lemma {:induction false} SubstringAt(needle: string, hay: string)
    requires IsSubstring(needle, hay)
    ensures exists k: nat :: OccursAt(needle, hay, k)
    decreases |hay|
  {
    if IsPrefix(needle, hay) {
      assert OccursAt(needle, hay, 0);
    } else {
      SubstringAt(needle, hay[1..]);
      var k: nat :| OccursAt(needle, hay[1..], k);
      assert hay[k + 1..k + 1 + |needle|] == hay[1..][k..k + |needle|];
      assert OccursAt(needle, hay, k + 1);
    }
  }

  /** `needle` occurring at any position of `hay` occurs in `hay`. */
  lemma {:induction false} SubstringFrom(needle: string, hay: string, k: nat)
    requires OccursAt(needle, hay, k)
    ensures IsSubstring(needle, hay)
    decreases k
  {
    if k == 0 {
      assert hay[..|needle|] == needle;
    } else {
      assert hay[1..][k - 1..k - 1 + |needle|] == hay[k..k + |needle|];
      SubstringFrom(needle, hay[1..], k - 1);
    }
  }

  /** Occurrence is transitive: a key inside another key occurs wherever that one does. */
  lemma SubstringTransitive(a: string, b: string, c: string)
    requires IsSubstring(a, b) && IsSubstring(b, c)
    ensures IsSubstring(a, c)
  {
    SubstringAt(a, b);
    var k: nat :| OccursAt(a, b, k);
    SubstringAt(b, c);
    var m: nat :| OccursAt(b, c, m);
    assert forall t :: 0 <= t < |a| ==> c[m + k + t] == b[k + t] == a[t];
    assert c[m + k..m + k + |a|] == a;
    SubstringFrom(a, c, m + k);
  }

  /**
    A key that contains an earlier key of the table is never the match: the
    earlier key occurs in every name the later one does, and is tried first.
  */
  lemma ShadowedKeyNeverMatches(name: string, i: nat, j: nat)
    requires i < j < |ServiceLogos|
    requires IsSubstring(ServiceLogos[i].0, ServiceLogos[j].0)
    ensures FirstMatch(ServiceLogos, ToLower(name)) != Some(j)
  {
    var hay := ToLower(name);
    if FirstMatch(ServiceLogos, hay) == Some(j) {
      SubstringTransitive(ServiceLogos[i].0, ServiceLogos[j].0, hay);
      assert false;
    }
  }

  /** The key "apple tv" is never reached: "apple" comes before it, so "Apple TV" gets the Apple logo. */
  lemma AppleTvKeyNeverMatches(name: string)
    ensures FirstMatch(ServiceLogos, ToLower(name)) != Some(3)
  {
    assert ServiceLogos[2].0 == "apple" && ServiceLogos[3].0 == "apple tv";
    assert IsPrefix("apple", "apple tv");
    ShadowedKeyNeverMatches(name, 2, 3);
  }

  /** The names of `subs`, in order. */
  function Names(subs: seq<Subscription>): (r: seq<string>)
    reads subs
    ensures |r| == |subs| && forall k :: 0 <= k < |subs| ==> r[k] == subs[k].name
  {
    if |subs| == 0 then [] else Names(subs[..|subs| - 1]) + [subs[|subs| - 1].name]
  }

  /** The logos of `subs`, in order. */
  function Logos(subs: seq<Subscription>): (r: seq<Option<string>>)
    reads subs
    ensures |r| == |subs| && forall k :: 0 <= k < |subs| ==> r[k] == subs[k].logoUrl
  {
    if |subs| == 0 then [] else Logos(subs[..|subs| - 1]) + [subs[|subs| - 1].logoUrl]
  }

  /** The number of positions where `logos` differs from `target`. */
  function ChangedCount(logos: seq<Option<string>>, target: seq<Option<string>>): nat
    requires |logos| == |target|
  {
    if |logos| == 0 then 0
    else
      var n := |logos| - 1;
      ChangedCount(logos[..n], target[..n]) + (if logos[n] != target[n] then 1 else 0)
  }

  /** The logos `lookup` gives subscriptions with these names. */
  function Targets(lookup: string -> string, names: seq<string>): (r: seq<Option<string>>)
    ensures |r| == |names| && forall k :: 0 <= k < |names| ==> r[k] == Some(lookup(names[k]))
  {
    seq(|names|, k requires 0 <= k < |names| => Some(lookup(names[k])))
  }

  /** The logos the fixer assigns to subscriptions with these names. */
  function IdealLogos(names: seq<string>): (r: seq<Option<string>>)
    ensures |r| == |names|
    ensures forall k :: 0 <= k < |names| ==> r[k].Some?
    ensures forall k :: 0 <= k < |names| ==>
      r[k].value == DefaultLogo || exists i :: 0 <= i < |ServiceLogos| && r[k].value == ServiceLogos[i].1
    ensures forall j, k :: 0 <= j < |names| && 0 <= k < |names| && ToLower(names[j]) == ToLower(names[k]) ==> r[j] == r[k]
  {
    Targets(LogoUrlForService, names)
  }

  /** At most every position changes, and none does exactly when the logos already are the target. */
  lemma {:induction false} ChangedCountBounds(logos: seq<Option<string>>, target: seq<Option<string>>)
    requires |logos| == |target|
    ensures ChangedCount(logos, target) <= |logos|
    ensures ChangedCount(logos, target) == 0 <==> logos == target
  {
    if |logos| > 0 {
      var n := |logos| - 1;
      ChangedCountBounds(logos[..n], target[..n]);
      if logos[..n] == target[..n] && logos[n] == target[n] {
        calc {
          logos;
          logos[..n] + [logos[n]];
          target[..n] + [target[n]];
          target;
        }
      }
    }
  }

  /**
    `update_subscription_logos()` over the subscriptions `subs`; the frame
    lets it change their logos and nothing else.
  */
  method UpdateSubscriptionLogos(subs: seq<Subscription>) returns (count: nat)
    requires forall i, j :: 0 <= i < j < |subs| ==> subs[i] != subs[j]
    modifies subs`logoUrl
    ensures Names(subs) == old(Names(subs))
    ensures Logos(subs) == IdealLogos(Names(subs))
    ensures count == ChangedCount(old(Logos(subs)), IdealLogos(Names(subs)))
  {
    ghost var oldLogos := Logos(subs);
    ghost var names := Names(subs);
    count := FixEach(subs, LogoUrlForService, oldLogos, names);
    assert Names(subs) == names;
    assert Logos(subs) == IdealLogos(names);
  }

  /**
    The fixer's loop, stated position by position, for any logo lookup
    `lookup`: every logo becomes `lookup` of its name, and the count is the
    number of positions that changed.
  */
  method FixEach(subs: seq<Subscription>, lookup: string -> string, ghost oldLogos: seq<Option<string>>, ghost names: seq<string>)
    returns (count: nat)
    requires forall i, j :: 0 <= i < j < |subs| ==> subs[i] != subs[j]
    requires |oldLogos| == |names| == |subs|
    requires forall k :: 0 <= k < |subs| ==> subs[k].logoUrl == oldLogos[k] && subs[k].name == names[k]
    modifies subs`logoUrl
    ensures forall k :: 0 <= k < |subs| ==> subs[k].name == names[k]
    ensures forall k :: 0 <= k < |subs| ==> subs[k].logoUrl == Some(lookup(names[k]))
    ensures count == ChangedCount(oldLogos, Targets(lookup, names))
  {
    ghost var target := Targets(lookup, names);
    count := 0;
    var i := 0;
    while i < |subs|
      invariant 0 <= i <= |subs|
      invariant forall k :: 0 <= k < |subs| ==> subs[k].name == names[k]
      invariant forall k :: 0 <= k < i ==> subs[k].logoUrl == target[k]
      invariant forall k :: i <= k < |subs| ==> subs[k].logoUrl == oldLogos[k]
      invariant count == ChangedCount(oldLogos[..i], target[..i])
    {
      var changed := FixLogo(subs[i], lookup);
      if changed {
        count := count + 1;
      }
      assert oldLogos[..i + 1][..i] == oldLogos[..i] && target[..i + 1][..i] == target[..i];
      i := i + 1;
    }
    assert oldLogos[..i] == oldLogos && target[..i] == target;
  }

  /** One step of the fixer: give `s` the logo `lookup` gives its name, and say whether that changed it. */
  method FixLogo(s: Subscription, lookup: string -> string) returns (changed: bool)
    modifies s`logoUrl
    ensures s.logoUrl == Some(lookup(s.name))
    ensures changed <==> old(s.logoUrl) != s.logoUrl
  {
    var oldLogo := s.logoUrl;
    s.logoUrl := Some(lookup(s.name));
    changed := oldLogo != s.logoUrl;
  }

  /** Running the fixer twice in a row: the second run finds nothing to change and reports 0. */
  method UpdateSubscriptionLogosTwice(subs: seq<Subscription>) returns (first: nat, second: nat)
    requires forall i, j :: 0 <= i < j < |subs| ==> subs[i] != subs[j]
    modifies subs`logoUrl
    ensures Logos(subs) == IdealLogos(Names(subs))
    ensures first == ChangedCount(old(Logos(subs)), IdealLogos(Names(subs)))
    ensures second == 0
  {
    first := UpdateSubscriptionLogos(subs);
    ghost var names := Names(subs);
    ghost var ideal := IdealLogos(names);
    assert Logos(subs) == ideal;
    second := UpdateSubscriptionLogos(subs);
    assert second == ChangedCount(ideal, ideal);
    ChangedCountBounds(ideal, ideal);
  }
}
