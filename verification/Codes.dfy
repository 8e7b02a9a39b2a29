/** The codes profiles name their servers by. */
module Codes {
  import opened Text

  /** A profile, whether its own naming rules are usable and take a code from its name, and
      its own code, if any. */
  datatype Profile = Profile(name: string, rulesOk: bool, fallback: bool, code: string)

  /** A manifest: whether its own naming rules are usable, and its profiles by name. */
  datatype Manifest = Manifest(rulesOk: bool, profiles: seq<Profile>)

  datatype CodeError = BadDefaults | BadRules(profile: string) | BadCode(profile: string) | Shared(profile: string, other: string)

  /** The first profile before n that has the code. */
  function Owner(profiles: seq<Profile>, n: nat, code: string): Option<string>
    requires n <= |profiles|
  {
    if n == 0 then None
    else if profiles[n - 1].code == code then Some(profiles[n - 1].name)
    else Owner(profiles, n - 1, code)
  }

  /** What is wrong with profile i, given those before it. */
  function Fault(profiles: seq<Profile>, i: nat): Option<CodeError>
    requires i < |profiles|
  {
    var p := profiles[i];
    if !p.rulesOk then Some(BadRules(p.name))
    else if p.code == "" then None
    else if !AllAlnum(p.code) then Some(BadCode(p.name))
    else match Owner(profiles, i, p.code)
      case Some(other) => Some(Shared(p.name, other))
      case None => None
  }

  function FirstFault(profiles: seq<Profile>, i: nat): Option<CodeError>
    requires i <= |profiles|
    decreases |profiles| - i
  {
    if i == |profiles| then None
    else if Fault(profiles, i).Some? then Fault(profiles, i)
    else FirstFault(profiles, i + 1)
  }

  /** The manifest's own rules are checked first, whether or not a profile goes by them. */
  function ManifestFault(m: Manifest): Option<CodeError> {
    if !m.rulesOk then Some(BadDefaults) else FirstFault(m.profiles, 0)
  }

  /** The check as the code makes it, with a map from each code to its profile. */
  method CheckNaming(m: Manifest) returns (err: Option<CodeError>)
    ensures err == ManifestFault(m)
  {
    if !m.rulesOk { return Some(BadDefaults); }
    var owner: map<string, string> := map[];
    var profiles := m.profiles;
    var i := 0;
    while i < |profiles|
      invariant 0 <= i <= |profiles| && FirstFault(profiles, 0) == FirstFault(profiles, i)
      invariant forall c :: c != "" ==> Owner(profiles, i, c) == if c in owner then Some(owner[c]) else None
    {
      var p := profiles[i];
      if !p.rulesOk { return Some(BadRules(p.name)); }
      if p.code != "" {
        if !AllAlnum(p.code) { return Some(BadCode(p.name)); }
        if p.code in owner { return Some(Shared(p.name, owner[p.code])); }
        owner := owner[p.code := p.name];
      }
      i := i + 1;
    }
    return None;
  }

  predicate Accepted(m: Manifest) {
    var profiles := m.profiles;
    && m.rulesOk
    && (forall i :: 0 <= i < |profiles| ==> profiles[i].rulesOk && AllAlnum(profiles[i].code))
    && (forall i, j :: 0 <= i < j < |profiles| && profiles[j].code != "" ==> profiles[i].code != profiles[j].code)
  }

  lemma {:induction false} OwnerNone(profiles: seq<Profile>, n: nat, code: string)
    requires n <= |profiles|
    ensures Owner(profiles, n, code).None? <==> forall i :: 0 <= i < n ==> profiles[i].code != code
  {
    if n > 0 { OwnerNone(profiles, n - 1, code); }
  }

  lemma {:induction false} FirstFaultNone(profiles: seq<Profile>, i: nat)
    requires i <= |profiles|
    ensures FirstFault(profiles, i).None? <==> forall k: nat :: i <= k < |profiles| ==> Fault(profiles, k).None?
    decreases |profiles| - i
  {
    if i < |profiles| { FirstFaultNone(profiles, i + 1); }
  }

  /** A manifest is let through exactly when its rules are usable, and those of every
      profile, and its own codes are letters and digits, no two the same. */
  lemma CheckExact(m: Manifest)
    ensures ManifestFault(m).None? <==> Accepted(m)
  {
    var profiles := m.profiles;
    FirstFaultNone(profiles, 0);
    forall k: nat | k < |profiles|
      ensures Fault(profiles, k).None? <==>
              profiles[k].rulesOk
              && (profiles[k].code == "" || (AllAlnum(profiles[k].code) && forall i :: 0 <= i < k ==> profiles[i].code != profiles[k].code))
    {
      OwnerNone(profiles, k, profiles[k].code);
    }
    if FirstFault(profiles, 0).None? {
      forall i, j | 0 <= i < j < |profiles| && profiles[j].code != "" ensures profiles[i].code != profiles[j].code {
        assert Fault(profiles, j).None?;
      }
      forall i | 0 <= i < |profiles| ensures profiles[i].rulesOk && AllAlnum(profiles[i].code) { assert Fault(profiles, i).None?; }
    }
  }

  /** A name's letters and digits, in lower case. */
  function Letters(name: string): string {
    if name == "" then "" else (if IsAlnum(Lower(name[0])) then [Lower(name[0])] else "") + Letters(name[1..])
  }

  /** A profile's code: its own, else, where its rules fall back, one from its name. */
  function CodeOf(p: Profile): string {
    if p.code != "" then p.code else if p.fallback then Letters(p.name) else ""
  }

  /** No two profiles have one code. */
  predicate Apart(profiles: seq<Profile>) {
    forall i, j :: 0 <= i < j < |profiles| && CodeOf(profiles[i]) != "" ==> CodeOf(profiles[i]) != CodeOf(profiles[j])
  }

  /** The letters of a name used for a code are no other profile's own code, nor the
      letters of another name used for one. */
  predicate NamesClear(profiles: seq<Profile>) {
    forall i, j :: 0 <= i < |profiles| && 0 <= j < |profiles| && i != j && FromName(profiles[i]) ==>
      && profiles[j].code != Letters(profiles[i].name)
      && (FromName(profiles[j]) ==> Letters(profiles[j].name) != Letters(profiles[i].name))
  }

  predicate FromName(p: Profile) { p.code == "" && p.fallback && Letters(p.name) != "" }

  /** In a manifest that is let through, no two profiles share a code exactly when no name
      stands for one that is taken: own codes alone are always apart. */
  lemma CodesApart(m: Manifest)
    requires ManifestFault(m).None?
    ensures Apart(m.profiles) <==> NamesClear(m.profiles)
    ensures (forall i :: 0 <= i < |m.profiles| ==> !FromName(m.profiles[i])) ==> Apart(m.profiles)
  {
    CheckExact(m);
    var profiles := m.profiles;
    if NamesClear(profiles) {
      forall i, j | 0 <= i < j < |profiles| && CodeOf(profiles[i]) != "" ensures CodeOf(profiles[i]) != CodeOf(profiles[j]) {
        assert profiles[j].code != "" ==> profiles[i].code != profiles[j].code;
        if FromName(profiles[i]) { assert profiles[j].code != Letters(profiles[i].name); }
        if FromName(profiles[j]) { assert profiles[i].code != Letters(profiles[j].name); }
      }
    }
    if Apart(profiles) {
      forall i, j | 0 <= i < |profiles| && 0 <= j < |profiles| && i != j && FromName(profiles[i])
        ensures profiles[j].code != Letters(profiles[i].name)
        ensures FromName(profiles[j]) ==> Letters(profiles[j].name) != Letters(profiles[i].name)
      {
        var a, b := if i < j then i else j, if i < j then j else i;
        assert CodeOf(profiles[a]) != "" ==> CodeOf(profiles[a]) != CodeOf(profiles[b]);
        assert CodeOf(profiles[i]) == Letters(profiles[i].name);
      }
    }
  }

  /** Two names that differ only in what is no letter or digit, and a name that is another
      profile's own code: the manifest is let through, and they share. */
  lemma FallbackShares(a: string, b: string, sep: string, own: string)
    requires Letters(a) != "" && sep != "" && forall i :: 0 <= i < |sep| ==> !IsAlnum(Lower(sep[i]))
    requires own != "" && AllAlnum(own) && a != own
    ensures a + b != a + sep + b
    ensures var two := [Profile(a + b, true, true, ""), Profile(a + sep + b, true, true, "")];
            ManifestFault(Manifest(true, two)).None? && !Apart(two)
    ensures var two := [Profile(a, true, true, own), Profile(own, true, true, "")];
            ManifestFault(Manifest(true, two)).None? && !Apart(two)
  {
    SameLetters(a, b, sep);
    PlainLetters(own);
    Sharing(Profile(a + b, true, true, ""), Profile(a + sep + b, true, true, ""));
    Sharing(Profile(a, true, true, own), Profile(own, true, true, ""));
    assert |a + b| < |a + sep + b|;
  }

  lemma Sharing(p: Profile, q: Profile)
    requires p.rulesOk && q.rulesOk && AllAlnum(p.code) && q.code == "" && CodeOf(p) == CodeOf(q) != ""
    ensures ManifestFault(Manifest(true, [p, q])).None? && !Apart([p, q])
  {
    var two := [p, q];
    CheckExact(Manifest(true, two));
    assert CodeOf(two[0]) == CodeOf(two[1]) != "";
  }

  lemma {:induction false} PlainLetters(s: string)
    requires AllAlnum(s)
    ensures Letters(s) == s
  {
    if s != "" { PlainLetters(s[1..]); }
  }

  lemma SameLetters(a: string, b: string, sep: string)
    requires forall i :: 0 <= i < |sep| ==> !IsAlnum(Lower(sep[i]))
    ensures Letters(a + b) == Letters(a) + Letters(b) == Letters(a + sep + b)
  {
    LettersAppend(a, b);
    LettersAppend(a + sep, b);
    LettersAppend(a, sep);
    NoLetters(sep);
    assert Letters(a) + "" == Letters(a);
  }

  lemma {:induction false} LettersAppend(a: string, b: string)
    ensures Letters(a + b) == Letters(a) + Letters(b)
  {
    if a == "" {
      assert a + b == b;
    } else {
      LettersAppend(a[1..], b);
      assert (a + b)[1..] == a[1..] + b;
    }
  }

  lemma {:induction false} NoLetters(s: string)
    requires forall i :: 0 <= i < |s| ==> !IsAlnum(Lower(s[i]))
    ensures Letters(s) == ""
  {
    if s != "" { NoLetters(s[1..]); }
  }
}
