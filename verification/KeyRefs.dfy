/** The keys a question is about, written as one text for the second look to compare. */
module KeyRefs {
  import opened Text

  datatype KeyRef = KeyRef(profile: string, name: string)

  function RefText(r: KeyRef): string { r.profile + "/" + r.name }

  function Texts(refs: seq<KeyRef>): (names: seq<string>)
    ensures |names| == |refs| && forall i :: 0 <= i < |refs| ==> names[i] == RefText(refs[i])
  {
    seq(|refs|, i requires 0 <= i < |refs| => RefText(refs[i]))
  }

  function RefsText(refs: seq<KeyRef>): string { Join(Texts(refs), ",") }

  method RefsOf(refs: seq<KeyRef>) returns (text: string)
    ensures text == RefsText(refs)
  {
    var names: seq<string> := [];
    for i := 0 to |refs|
      invariant names == Texts(refs[..i])
    {
      names := names + [RefText(refs[i])];
      assert names == Texts(refs[..i + 1]);
    }
    assert refs[..|refs|] == refs;
    text := Join(names, ",");
  }

  /** No profile or key name is empty or holds a slash: the manifest refuses one that is
      or does, and no file name can. */
  predicate Clear(r: KeyRef) { r.profile != "" && r.name != "" && '/' !in r.profile && '/' !in r.name }

  predicate AllClear(refs: seq<KeyRef>) { forall i :: 0 <= i < |refs| ==> Clear(refs[i]) }

  predicate NoComma(refs: seq<KeyRef>) { forall i :: 0 <= i < |refs| ==> ',' !in refs[i].profile }

  lemma RefTells(a: KeyRef, b: KeyRef)
    requires '/' !in a.profile && '/' !in b.profile && RefText(a) == RefText(b)
    ensures a == b
  {
    SlashCuts(a.profile, a.name, b.profile, b.name);
  }

  lemma SlashCuts(a: string, x: string, b: string, y: string)
    requires '/' !in a && '/' !in b && a + "/" + x == b + "/" + y
    ensures a == b && x == y
  {
    IndexOfFirst(a, '/', x);
    IndexOfFirst(b, '/', y);
    var t := a + "/" + x;
    assert t[..|a|] == a && t[|a| + 1..] == x && t[..|b|] == b && t[|b| + 1..] == y;
  }

  // The number of keys can always be told.

  function Slashes(s: string): nat {
    if s == "" then 0 else (if s[0] == '/' then 1 else 0) + Slashes(s[1..])
  }

  lemma {:induction false} SlashesOf(a: string, b: string)
    ensures Slashes(a + b) == Slashes(a) + Slashes(b)
  {
    if a == "" {
      assert a + b == b;
    } else {
      SlashesOf(a[1..], b);
      assert (a + b)[1..] == a[1..] + b;
    }
  }

  lemma {:induction false} NoSlashes(s: string)
    requires '/' !in s
    ensures Slashes(s) == 0
  {
    if s != "" { NoSlashes(s[1..]); }
  }

  lemma OneSlash(r: KeyRef)
    requires Clear(r)
    ensures Slashes(RefText(r)) == 1
  {
    SlashesOf(r.profile + "/", r.name);
    SlashesOf(r.profile, "/");
    NoSlashes(r.profile);
    NoSlashes(r.name);
  }

  /** The text has a slash for each key, and no other. */
  lemma {:induction false} SlashForEach(refs: seq<KeyRef>)
    requires AllClear(refs)
    ensures Slashes(RefsText(refs)) == |refs|
  {
    if refs == [] {
      assert Texts(refs) == [];
    } else {
      OneSlash(refs[0]);
      SlashForEach(refs[1..]);
      TextStep(refs);
      if |refs| > 1 {
        SlashesOf(RefText(refs[0]), "," + RefsText(refs[1..]));
        SlashesOf(",", RefsText(refs[1..]));
      }
    }
  }

  lemma TextStep(refs: seq<KeyRef>)
    requires refs != []
    ensures RefsText(refs) == RefText(refs[0]) + if |refs| == 1 then "" else "," + RefsText(refs[1..])
  {
    assert Texts(refs) == [RefText(refs[0])] + Texts(refs[1..]);
    if |refs| > 1 { JoinFirst(RefText(refs[0]), Texts(refs[1..]), ","); }
  }

  // Which keys they are.

  /** The text from a key's name on, with the keys behind it. */
  function From(name: string, rest: seq<KeyRef>): string {
    if rest == [] then name else name + "," + RefsText(rest)
  }

  lemma TextFrom(refs: seq<KeyRef>)
    requires refs != []
    ensures RefsText(refs) == refs[0].profile + "/" + From(refs[0].name, refs[1..])
  {
    TextStep(refs);
    if |refs| > 1 {
      var a, b, c := refs[0].profile + "/", refs[0].name, "," + RefsText(refs[1..]);
      assert a + b + c == a + (b + c);
    }
  }

  lemma FromStep(name: string, rest: seq<KeyRef>)
    requires rest != []
    ensures From(name, rest) == name + "," + rest[0].profile + "/" + From(rest[0].name, rest[1..])
  {
    TextFrom(rest);
  }

  /** A name and the profile after it have one comma between text and text. */
  predicate OneCut(name: string, profile: string) {
    var joint := name + "," + profile;
    forall k :: 0 < k < |joint| - 1 && joint[k] == ',' ==> k == |name|
  }

  /** Every key's name and the next one's profile do. */
  predicate Told(refs: seq<KeyRef>) {
    forall i :: 0 <= i < |refs| - 1 ==> OneCut(refs[i].name, refs[i + 1].profile)
  }

  lemma SameCut(n: string, p: string, m: string, q: string)
    requires n != "" && p != "" && m != "" && q != "" && n + "," + p == m + "," + q
    requires OneCut(n, p) || (',' !in p && ',' !in q)
    ensures n == m && p == q
  {
    var joint := n + "," + p;
    assert joint[|n|] == ',' && joint[|m|] == ',';
    assert p == joint[|n| + 1..] && q == joint[|m| + 1..] && n == joint[..|n|] && m == joint[..|m|];
    if ',' !in p && ',' !in q {
      NoCommaBehind(n, p);
      NoCommaBehind(m, q);
    }
  }

  lemma NoCommaBehind(n: string, p: string)
    requires ',' !in p
    ensures forall k :: |n| < k < |n + "," + p| ==> (n + "," + p)[k] != ','
  {
    assert forall k :: |n| < k < |n + "," + p| ==> (n + "," + p)[k] == p[k - |n| - 1];
  }

  lemma SlashShows(name: string, rest: seq<KeyRef>)
    requires '/' !in name
    ensures '/' in From(name, rest) <==> rest != []
  {
    if rest != [] {
      FromStep(name, rest);
      assert From(name, rest)[|name + "," + rest[0].profile|] == '/';
    }
  }

  /** Two lists of keys that read the same, or whose profiles hold no comma. */
  predicate Comparable(a: seq<KeyRef>, b: seq<KeyRef>) {
    AllClear(a) && AllClear(b) && (Told(a) || (NoComma(a) && NoComma(b)))
  }

  lemma FirstSame(a: seq<KeyRef>, b: seq<KeyRef>)
    requires |a| > 1 && |b| > 1 && Comparable(a, b) && From(a[0].name, a[1..]) == From(b[0].name, b[1..])
    ensures a[0].name == b[0].name && a[1].profile == b[1].profile
    ensures From(a[1].name, a[1..][1..]) == From(b[1].name, b[1..][1..])
  {
    var x, y := a[1..], b[1..];
    FromStep(a[0].name, x);
    FromStep(b[0].name, y);
    SlashCuts(a[0].name + "," + x[0].profile, From(x[0].name, x[1..]), b[0].name + "," + y[0].profile, From(y[0].name, y[1..]));
    assert Told(a) ==> OneCut(a[0].name, a[0 + 1].profile);
    SameCut(a[0].name, x[0].profile, b[0].name, y[0].profile);
  }

  lemma {:induction false} SameFrom(a: seq<KeyRef>, b: seq<KeyRef>)
    requires a != [] && b != [] && Comparable(a, b)
    requires a[0].profile == b[0].profile && From(a[0].name, a[1..]) == From(b[0].name, b[1..])
    ensures a == b
    decreases |a|
  {
    SlashShows(a[0].name, a[1..]);
    SlashShows(b[0].name, b[1..]);
    if |a| > 1 {
      FirstSame(a, b);
      ToldRest(a, b);
      SameFrom(a[1..], b[1..]);
    }
    assert a == [a[0]] + a[1..] && b == [b[0]] + b[1..];
  }

  lemma ToldRest(a: seq<KeyRef>, b: seq<KeyRef>)
    requires a != [] && b != [] && Comparable(a, b)
    ensures Comparable(a[1..], b[1..])
  {
    if Told(a) {
      forall i | 0 <= i < |a[1..]| - 1 ensures OneCut(a[1..][i].name, a[1..][i + 1].profile) {
        assert OneCut(a[i + 1].name, a[i + 1 + 1].profile);
      }
    }
  }

  lemma SameRefs(a: seq<KeyRef>, b: seq<KeyRef>)
    requires Comparable(a, b) && RefsText(a) == RefsText(b)
    ensures a == b
  {
    SlashForEach(a);
    SlashForEach(b);
    if a != [] {
      TextFrom(a);
      TextFrom(b);
      SlashCuts(a[0].profile, From(a[0].name, a[1..]), b[0].profile, From(b[0].name, b[1..]));
      SameFrom(a, b);
    }
  }

  /** Where no profile holds a comma, the texts are the same exactly when the keys are,
      in number and in order, whatever the key names hold. */
  lemma RefsTell(a: seq<KeyRef>, b: seq<KeyRef>)
    requires AllClear(a) && AllClear(b) && NoComma(a) && NoComma(b)
    ensures RefsText(a) == RefsText(b) <==> a == b
  {
    if RefsText(a) == RefsText(b) { SameRefs(a, b); }
  }

  /** The keys with the cut between key i and the next made at k. */
  function Recut(refs: seq<KeyRef>, i: nat, k: nat): seq<KeyRef>
    requires i + 1 < |refs| && k < |refs[i].name + "," + refs[i + 1].profile|
  {
    var joint := refs[i].name + "," + refs[i + 1].profile;
    refs[i := KeyRef(refs[i].profile, joint[..k])][i + 1 := KeyRef(joint[k + 1..], refs[i + 1].name)]
  }

  lemma {:induction false} RecutText(refs: seq<KeyRef>, i: nat, k: nat)
    requires i + 1 < |refs| && k < |refs[i].name + "," + refs[i + 1].profile|
    requires (refs[i].name + "," + refs[i + 1].profile)[k] == ','
    ensures RefsText(Recut(refs, i, k)) == RefsText(refs)
  {
    var cut := Recut(refs, i, k);
    TextStep(refs);
    TextStep(cut);
    if i > 0 {
      RecutText(refs[1..], i - 1, k);
      assert cut[1..] == Recut(refs[1..], i - 1, k);
    } else {
      var joint := refs[0].name + "," + refs[1].profile;
      assert joint == joint[..k] + "," + joint[k + 1..];
      assert cut[1..][1..] == refs[1..][1..];
      TextFrom(refs);
      TextFrom(cut);
      FromStep(refs[0].name, refs[1..]);
      FromStep(cut[0].name, cut[1..]);
    }
  }

  /** A text settles its keys exactly when no other comma could end one of its names: two
      commas about a profile's start, or in a name, are enough. */
  lemma RefsToldExactly(a: seq<KeyRef>)
    requires AllClear(a)
    ensures Told(a) <==> forall b :: AllClear(b) && RefsText(b) == RefsText(a) ==> b == a
  {
    if Told(a) {
      forall b | AllClear(b) && RefsText(b) == RefsText(a) ensures b == a { SameRefs(a, b); }
    } else {
      var i :| 0 <= i < |a| - 1 && !OneCut(a[i].name, a[i + 1].profile);
      var joint := a[i].name + "," + a[i + 1].profile;
      var k :| 0 < k < |joint| - 1 && joint[k] == ',' && k != |a[i].name|;
      RecutText(a, i, k);
      var b := Recut(a, i, k);
      assert forall c :: c in joint ==> c != '/';
      assert |b[i].name| == k;
    }
  }
}
