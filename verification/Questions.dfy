/** What each command that asks says, what it looks at again under the lock, and whether
    what it then does is what was agreed to. */
module Questions {
  import opened Text
  import opened Protocol
  import opened KeyRefs
  import opened Previews

  /** What a question says, and what is compared of it. */
  datatype Shown<A, B> = Says(a: A) | Binds(b: B)

  /** A command that asks when there is anything to ask about. `says` is what its question
      tells the person who reads it, `binds` the text that is worked out again. */
  function QuestionWhen<H, A, B>(asks: H -> bool, says: H -> A, binds: H -> B, before: seq<Stage<H>>, after: seq<Stage<H>>)
    : Command<H, Shown<A, B>>
  {
    Command(false, asks, h => Says(says(h)), h => Binds(binds(h)), before, after)
  }

  /** A command that always asks. */
  function Question<H, A, B>(says: H -> A, binds: H -> B, after: seq<Stage<H>>): Command<H, Shown<A, B>> {
    QuestionWhen(h => true, says, binds, [], after)
  }

  /** Where it is asked, the text compared settles what was said. */
  ghost predicate Settles<H(!new), A, B>(asks: H -> bool, says: H -> A, binds: H -> B, before: seq<Stage<H>>) {
    forall h, g :: asks(h) && binds(h) == binds(Applied(before, g)) ==> says(h) == says(Applied(before, g))
  }

  /** c asks by saying `says` and compares `binds`. */
  ghost predicate Asks<H(!new), A, B>(c: Command<H, Shown<A, B>>, says: H -> A, binds: H -> B) {
    !c.early && forall h :: c.show(h) == Says(says(h)) && c.bind(h) == Binds(binds(h))
  }

  /** Beside any other commands, what is done is what the question said exactly when,
      wherever it is asked, the text compared settles what it said. */
  lemma AskedExactly<H(!new), A(!new), B(!new)>(c: Command<H, Shown<A, B>>, says: H -> A, binds: H -> B)
    requires Asks(c, says, binds)
    ensures NeverMisled(c) <==> Settles(c.asks, says, binds, c.before)
  {
    AgreedExactly(c);
    if ShowsWhatItBinds(c) {
      forall h, g | c.asks(h) && binds(h) == binds(Applied(c.before, g)) ensures says(h) == says(Applied(c.before, g)) {
        assert c.bind(h) == c.bind(Applied(c.before, g));
        assert c.show(h) == c.show(Applied(c.before, g));
      }
    }
    if Settles(c.asks, says, binds, c.before) {
      forall h, g | c.asks(h) && c.bind(h) == c.bind(Applied(c.before, g)) ensures c.show(h) == c.show(Applied(c.before, g)) {
        assert binds(h) == binds(Applied(c.before, g));
      }
    }
  }

  /** With nothing done in any case, it is a matter of two homes. */
  lemma AskedOfTwo<H(!new), A(!new), B(!new)>(c: Command<H, Shown<A, B>>, says: H -> A, binds: H -> B)
    requires Asks(c, says, binds) && c.before == []
    ensures NeverMisled(c) <==> forall h, g :: c.asks(h) && binds(h) == binds(g) ==> says(h) == says(g)
  {
    AskedExactly(c, says, binds);
    assert forall g: H :: Applied(c.before, g) == g;
    if Settles(c.asks, says, binds, c.before) {
      forall h, g | c.asks(h) && binds(h) == binds(g) ensures says(h) == says(g) {
        assert binds(h) == binds(Applied(c.before, g));
      }
    }
  }

  lemma AskedOfEqual<H(!new), A(!new), B(!new)>(c: Command<H, Shown<A, B>>, says: H -> A, binds: H -> B)
    requires Asks(c, says, binds) && c.before == [] && forall h :: c.asks(h)
    ensures NeverMisled(c) <==> forall h, g :: binds(h) == binds(g) ==> says(h) == says(g)
  {
    AskedOfTwo(c, says, binds);
  }

  // Keys.

  /** key delete names the key its selector means, and compares that name. */
  function KeyDelete<H>(resolve: H -> KeyRef, delete: seq<Stage<H>>): Command<H, Shown<KeyRef, string>> {
    Question(resolve, h => RefText(resolve(h)), delete)
  }

  /** The key deleted is the key named, profile and all. */
  lemma KeyDeleteKeepsWord<H(!new)>(resolve: H -> KeyRef, delete: seq<Stage<H>>)
    requires forall h :: Clear(resolve(h))
    ensures NeverMisled(KeyDelete(resolve, delete))
  {
    var binds := h => RefText(resolve(h));
    AskedOfEqual(KeyDelete(resolve, delete), resolve, binds);
    forall h, g | binds(h) == binds(g) ensures resolve(h) == resolve(g) {
      assert Clear(resolve(h)) && Clear(resolve(g));
      RefTells(resolve(h), resolve(g));
    }
  }

  /** It always asks, by naming the key. After a yes it deletes exactly when the home it
      then finds gives a key of that text, which is that key; else, and after a no, it
      does nothing. */
  lemma KeyDeleteDoes<H>(resolve: H -> KeyRef, delete: seq<Stage<H>>, seen: H, h: H)
    ensures var c := KeyDelete(resolve, delete);
            && !c.early && c.asks(h) && c.show(h) == Says(resolve(h))
            && Effect(c, Agreed(seen), h) == (if RefText(resolve(h)) == RefText(resolve(seen)) then Applied(delete, h) else h)
            && Effect(c, Declined(seen), h) == h
    ensures Clear(resolve(seen)) && Clear(resolve(h)) ==>
              Effect(KeyDelete(resolve, delete), Agreed(seen), h) == if resolve(h) == resolve(seen) then Applied(delete, h) else h
  {
    if Clear(resolve(seen)) && Clear(resolve(h)) && RefText(resolve(h)) == RefText(resolve(seen)) {
      RefTells(resolve(h), resolve(seen));
    }
  }

  /** key regen-pub says how many keys it will write, and compares which. */
  function RegenPub<H>(rows: H -> seq<KeyRef>, write: seq<Stage<H>>): Command<H, Shown<nat, string>> {
    Question(h => |rows(h)|, h => RefsText(rows(h)), write)
  }

  /** It writes as many as it said, whatever the names hold: a name holds no slash. */
  lemma RegenPubKeepsWord<H(!new)>(rows: H -> seq<KeyRef>, write: seq<Stage<H>>)
    requires forall h :: AllClear(rows(h))
    ensures NeverMisled(RegenPub(rows, write))
  {
    var says: H -> nat, binds := h => |rows(h)|, h => RefsText(rows(h));
    AskedOfEqual(RegenPub(rows, write), says, binds);
    forall h, g | binds(h) == binds(g) ensures says(h) == says(g) {
      assert AllClear(rows(h)) && AllClear(rows(g));
      SlashForEach(rows(h));
      SlashForEach(rows(g));
    }
  }

  /** It always asks, by how many keys there are, and after a yes writes exactly when the
      home it then finds gives the same keys, as text; else nothing. */
  lemma RegenPubDoes<H>(rows: H -> seq<KeyRef>, write: seq<Stage<H>>, seen: H, h: H)
    ensures var c := RegenPub(rows, write);
            && !c.early && c.asks(h) && c.show(h) == Says(|rows(h)|)
            && Effect(c, Agreed(seen), h) == (if RefsText(rows(h)) == RefsText(rows(seen)) then Applied(write, h) else h)
            && Effect(c, Declined(seen), h) == h
    ensures AllClear(rows(seen)) && AllClear(rows(h)) && NoComma(rows(seen)) && NoComma(rows(h)) ==>
              Effect(RegenPub(rows, write), Agreed(seen), h) == if rows(h) == rows(seen) then Applied(write, h) else h
  {
    if AllClear(rows(seen)) && AllClear(rows(h)) && NoComma(rows(seen)) && NoComma(rows(h)) { RefsTell(rows(h), rows(seen)); }
  }

  /** keygen asks of each key that exists whether to overwrite it, and compares which keys
      exist. */
  function Keygen<H>(existing: H -> seq<KeyRef>, mint: seq<Stage<H>>): Command<H, Shown<seq<KeyRef>, string>> {
    Question(existing, h => RefsText(existing(h)), mint)
  }

  /** The answers, key by key: with --yes none is asked, without --force none is kept. */
  method AskOverwrites(existing: seq<KeyRef>, force: bool, yes: bool, confirms: KeyRef -> bool) returns (overwrite: set<KeyRef>)
    ensures overwrite == Answered(existing, force, yes, confirms)
  {
    overwrite := {};
    if force {
      for i := 0 to |existing|
        invariant overwrite == set r | r in existing[..i] && (yes || confirms(r))
      {
        assert existing[..i + 1] == existing[..i] + [existing[i]];
        if yes || confirms(existing[i]) { overwrite := overwrite + {existing[i]}; }
      }
      assert existing[..|existing|] == existing;
    }
  }

  function Answered(existing: seq<KeyRef>, force: bool, yes: bool, confirms: KeyRef -> bool): set<KeyRef> {
    set r | r in existing && force && (yes || confirms(r))
  }

  /** The keys a mint makes: those that are not there, then those to overwrite. */
  function Minted(missing: seq<KeyRef>, existing: seq<KeyRef>, overwrite: set<KeyRef>): seq<KeyRef> {
    missing + Chosen(existing, overwrite)
  }

  function Chosen(existing: seq<KeyRef>, overwrite: set<KeyRef>): seq<KeyRef> {
    if existing == [] then []
    else (if existing[0] in overwrite then [existing[0]] else []) + Chosen(existing[1..], overwrite)
  }

  lemma {:induction false} ChosenAre(existing: seq<KeyRef>, overwrite: set<KeyRef>)
    ensures forall r :: r in Chosen(existing, overwrite) <==> r in existing && r in overwrite
  {
    if existing != [] { ChosenAre(existing[1..], overwrite); }
  }

  /** keygen does what was answered exactly when the text of the keys settles the keys. */
  lemma KeygenExactly<H(!new)>(existing: H -> seq<KeyRef>, mint: seq<Stage<H>>)
    ensures NeverMisled(Keygen(existing, mint)) <==>
            forall h, g :: RefsText(existing(h)) == RefsText(existing(g)) ==> existing(h) == existing(g)
    ensures (forall h :: AllClear(existing(h)) && NoComma(existing(h))) ==> NeverMisled(Keygen(existing, mint))
  {
    var binds := h => RefsText(existing(h));
    AskedOfEqual(Keygen(existing, mint), existing, binds);
    assert forall h :: binds(h) == RefsText(existing(h));
    if NeverMisled(Keygen(existing, mint)) {
      forall h, g | RefsText(existing(h)) == RefsText(existing(g)) ensures existing(h) == existing(g) {
        assert binds(h) == binds(g);
      }
    }
    if forall h :: AllClear(existing(h)) && NoComma(existing(h)) {
      forall h, g | binds(h) == binds(g) ensures existing(h) == existing(g) {
        assert AllClear(existing(h)) && AllClear(existing(g));
        RefsTell(existing(h), existing(g));
      }
    }
  }

  /** It always asks, of the keys that exist, and after a yes mints exactly when the home it
      then finds has the same ones, as text; else nothing. */
  lemma KeygenDoes<H>(existing: H -> seq<KeyRef>, mint: seq<Stage<H>>, seen: H, h: H)
    ensures var c := Keygen(existing, mint);
            && !c.early && c.asks(h) && c.show(h) == Says(existing(h))
            && Effect(c, Agreed(seen), h) == (if RefsText(existing(h)) == RefsText(existing(seen)) then Applied(mint, h) else h)
            && Effect(c, Declined(seen), h) == h
    ensures AllClear(existing(seen)) && AllClear(existing(h)) && NoComma(existing(seen)) && NoComma(existing(h)) ==>
              Effect(Keygen(existing, mint), Agreed(seen), h) == if existing(h) == existing(seen) then Applied(mint, h) else h
  {
    if AllClear(existing(seen)) && AllClear(existing(h)) && NoComma(existing(seen)) && NoComma(existing(h)) {
      RefsTell(existing(h), existing(seen));
    }
  }

  /** When the second look passes and no profile has a comma, an existing key is
      overwritten under the lock exactly when it was asked about and the answer was yes. */
  lemma OverwritesAnswered(seen: seq<KeyRef>, found: seq<KeyRef>, missing: seq<KeyRef>, force: bool, yes: bool, confirms: KeyRef -> bool)
    requires AllClear(seen) && AllClear(found) && NoComma(seen) && NoComma(found) && RefsText(seen) == RefsText(found)
    requires forall r :: r in missing ==> r !in found
    ensures forall r :: r in found ==>
              (r in Minted(missing, found, Answered(seen, force, yes, confirms)) <==> r in seen && force && (yes || confirms(r)))
    ensures missing <= Minted(missing, found, Answered(seen, force, yes, confirms))
  {
    RefsTell(seen, found);
    ChosenAre(found, Answered(seen, force, yes, confirms));
  }

  /** A home that is its keys. */
  function AsTheyAre(): seq<KeyRef> -> seq<KeyRef> { (keys: seq<KeyRef>) => keys }

  /** A comma at the start of a profile's name is enough to mislead: two keys, then two
      others, whose texts are one. */
  lemma KeygenMisled(p: string, a: string, b: string, q: string, c: string, mint: seq<Stage<seq<KeyRef>>>)
    requires Clear(KeyRef(p, a)) && Clear(KeyRef(p, b)) && Clear(KeyRef(q, c))
    ensures var one, two := [KeyRef(p, a + "," + b), KeyRef(q, c)], [KeyRef(p, a), KeyRef(b + "," + q, c)];
            AllClear(one) && AllClear(two) && RefsText(one) == RefsText(two) && one != two
    ensures !NeverMisled(Keygen(AsTheyAre(), mint))
  {
    var one, two := [KeyRef(p, a + "," + b), KeyRef(q, c)], [KeyRef(p, a), KeyRef(b + "," + q, c)];
    var joint := a + "," + b + "," + q;
    assert joint[|a|] == ',' && joint[..|a|] == a && joint[|a| + 1..] == b + "," + q;
    assert one[0].name + "," + one[1].profile == joint;
    RecutText(one, 0, |a|);
    assert Recut(one, 0, |a|) == two;
    assert |one[0].name| > |two[0].name|;
    assert AsTheyAre()(one) == one && AsTheyAre()(two) == two;
    KeygenExactly(AsTheyAre(), mint);
  }

  // Previews.

  /** What a reconcile's preview is read as saying. */
  datatype ReconcileSays = ReconcileSays(mint: seq<string>, record: seq<string>, config: seq<string>)

  function ReconcileSaid(r: Reconcile): ReconcileSays { ReconcileSays(KeyNames(r.mint), r.record, ConfigLines(r)) }

  function ReconcileCommand<H>(plan: H -> Reconcile, apply: seq<Stage<H>>): Command<H, Shown<ReconcileSays, string>> {
    Question(h => ReconcileSaid(plan(h)), h => Report(ReconcileLines(plan(h))), apply)
  }

  /** A reconcile mints keys of the names it said, records those it said, and writes the
      files it said. */
  lemma ReconcileKeepsWord<H(!new)>(plan: H -> Reconcile, apply: seq<Stage<H>>)
    requires forall h :: Named(plan(h))
    ensures NeverMisled(ReconcileCommand(plan, apply))
  {
    var says, binds := h => ReconcileSaid(plan(h)), h => Report(ReconcileLines(plan(h)));
    AskedOfEqual(ReconcileCommand(plan, apply), says, binds);
    forall h, g | binds(h) == binds(g) ensures says(h) == says(g) {
      assert Named(plan(h)) && Named(plan(g));
      ReconcileTells(plan(h), plan(g));
    }
  }

  /** It always asks, by what it would do, and after a yes applies exactly when the home it
      then finds would have it do what was said; else nothing. */
  lemma ReconcileDoes<H>(plan: H -> Reconcile, apply: seq<Stage<H>>, seen: H, h: H)
    requires Named(plan(seen)) && Named(plan(h))
    ensures var c, same := ReconcileCommand(plan, apply), SamePlan(plan(h), plan(seen));
            && !c.early && c.asks(h) && c.show(h) == Says(ReconcileSaid(plan(h)))
            && Effect(c, Agreed(seen), h) == (if same then Applied(apply, h) else h)
            && Effect(c, Declined(seen), h) == h
  {
    ReconcileToldExactly(plan(h), plan(seen));
  }

  /** The same command, read as saying which keys it mints. */
  function ReconcileKeys<H>(plan: H -> Reconcile, apply: seq<Stage<H>>): Command<H, Shown<seq<KeyRef>, string>> {
    Question(h => plan(h).mint, h => Report(ReconcileLines(plan(h))), apply)
  }

  /** Read so too, it asks and does as before: what is found need be no more than equal
      in the names of its keys. */
  lemma ReconcileKeysDoes<H>(plan: H -> Reconcile, apply: seq<Stage<H>>, seen: H, h: H)
    requires Named(plan(seen)) && Named(plan(h))
    ensures var c, same := ReconcileKeys(plan, apply), SamePlan(plan(h), plan(seen));
            && !c.early && c.asks(h) && c.show(h) == Says(plan(h).mint)
            && Effect(c, Agreed(seen), h) == (if same then Applied(apply, h) else h)
            && Effect(c, Declined(seen), h) == h
  {
    ReconcileToldExactly(plan(h), plan(seen));
  }

  /** Which profile a key it mints is in, its preview does not say: it does mint the keys
      agreed to exactly when the preview settles their profiles. */
  lemma ReconcileProfiles<H(!new)>(plan: H -> Reconcile, apply: seq<Stage<H>>)
    requires forall h :: Named(plan(h))
    ensures NeverMisled(ReconcileKeys(plan, apply)) <==>
            forall h, g :: Report(ReconcileLines(plan(h))) == Report(ReconcileLines(plan(g))) ==>
                           Profiles(plan(h).mint) == Profiles(plan(g).mint)
  {
    var says, binds := h => plan(h).mint, h => Report(ReconcileLines(plan(h)));
    AskedOfEqual(ReconcileKeys(plan, apply), says, binds);
    assert forall h :: binds(h) == Report(ReconcileLines(plan(h))) && says(h) == plan(h).mint;
    forall h, g | binds(h) == binds(g)
      ensures says(h) == says(g) <==> Profiles(plan(h).mint) == Profiles(plan(g).mint)
    {
      assert Named(plan(h)) && Named(plan(g));
      ReconcileTells(plan(h), plan(g));
      SameKeys(plan(h).mint, plan(g).mint);
    }
  }

  function Profiles(refs: seq<KeyRef>): (names: seq<string>)
    ensures |names| == |refs| && forall i :: 0 <= i < |refs| ==> names[i] == refs[i].profile
  {
    seq(|refs|, i requires 0 <= i < |refs| => refs[i].profile)
  }

  lemma SameKeys(a: seq<KeyRef>, b: seq<KeyRef>)
    requires KeyNames(a) == KeyNames(b)
    ensures a == b <==> Profiles(a) == Profiles(b)
  {
    assert |a| == |b|;
    if Profiles(a) == Profiles(b) {
      forall i | 0 <= i < |a| ensures a[i] == b[i] {
        assert KeyNames(a)[i] == KeyNames(b)[i] && Profiles(a)[i] == Profiles(b)[i];
      }
    }
  }

  /** One key name in two profiles is all it takes. */
  lemma ReconcileOtherProfile(p: string, q: string, name: string, apply: seq<Stage<KeyRef>>)
    requires p != q && OneLine(name)
    ensures !NeverMisled(ReconcileKeys((missing: KeyRef) => Reconcile([missing], 0, [], [], []), apply))
  {
    var plan := (missing: KeyRef) => Reconcile([missing], 0, [], [], []);
    var says, binds := (h: KeyRef) => plan(h).mint, (h: KeyRef) => Report(ReconcileLines(plan(h)));
    var a, b := KeyRef(p, name), KeyRef(q, name);
    assert KeyNames(plan(a).mint) == KeyNames(plan(b).mint);
    assert MintLines(plan(a)) == MintLines(plan(b));
    assert ReconcileLines(plan(a)) == ReconcileLines(plan(b));
    assert binds(a) == binds(b) && says(a)[0] != says(b)[0];
    AskedOfEqual(ReconcileKeys(plan, apply), says, binds);
  }

  /** host apply shows what it would do with each host and compares that text. */
  function HostApply<H>(profile: string, exists_: H -> bool, preview: H -> seq<HostResult>, apply: seq<Stage<H>>)
    : Command<H, Shown<Told, string>>
  {
    Question(h => ToldOf(!exists_(h), preview(h)), h => Report(BatchLines(profile, !exists_(h), preview(h))), apply)
  }

  /** It makes the profile only if it said so, and does with each host what it said. */
  lemma HostApplyKeepsWord<H(!new)>(profile: string, exists_: H -> bool, preview: H -> seq<HostResult>, apply: seq<Stage<H>>)
    requires OneLine(profile) && forall h :: Batch(preview(h))
    ensures NeverMisled(HostApply(profile, exists_, preview, apply))
  {
    var says, binds := h => ToldOf(!exists_(h), preview(h)), h => Report(BatchLines(profile, !exists_(h), preview(h)));
    AskedOfEqual(HostApply(profile, exists_, preview, apply), says, binds);
    forall h, g | binds(h) == binds(g) ensures says(h) == says(g) {
      assert Batch(preview(h)) && Batch(preview(g));
      BatchTells(profile, !exists_(h), preview(h), !exists_(g), preview(g));
    }
  }

  /** It always asks, by what it would do with each host, and after a yes applies exactly
      when the home it then finds would have it do the same; else nothing. */
  lemma HostApplyDoes<H>(profile: string, exists_: H -> bool, preview: H -> seq<HostResult>, apply: seq<Stage<H>>, seen: H, h: H)
    requires OneLine(profile) && Batch(preview(seen)) && Batch(preview(h))
    ensures var c := HostApply(profile, exists_, preview, apply);
            var same := exists_(h) == exists_(seen) && SameTold(preview(h), preview(seen));
            && !c.early && c.asks(h) && c.show(h) == Says(ToldOf(!exists_(h), preview(h)))
            && Effect(c, Agreed(seen), h) == (if same then Applied(apply, h) else h)
            && Effect(c, Declined(seen), h) == h
  {
    BatchToldExactly(profile, !exists_(h), preview(h), !exists_(seen), preview(seen));
  }

  // VMs.

  /** A Docker context: where it points, and whether authama made it. */
  datatype Context = Context(endpoint: string, ours: bool)

  function Endpoint(alias: string): string { "ssh://" + alias }

  /** What a sync plans for the Docker context of a running VM, as lines it will be held
      to and notes it will not. */
  function DockerLines(alias: string, guest: bool, contexts: map<string, Context>): seq<string> {
    if alias !in contexts then
      if guest then ["create the Docker context " + alias + " -> ssh://" + alias + " (the guest runs Docker)"] else []
    else
      var c := contexts[alias];
      if (c.endpoint == Endpoint(alias)) == c.ours then [] else ["refresh the Docker context " + alias + " -> ssh://" + alias]
  }

  function DockerNotes(alias: string, contexts: map<string, Context>): seq<string> {
    if alias in contexts && contexts[alias].endpoint != Endpoint(alias) && !contexts[alias].ours then
      ["docker context " + alias + " exists but points at " + contexts[alias].endpoint + ", and authama did not make it; left alone"]
    else []
  }

  /** Making a context or refreshing it leaves it pointing at its VM, as authama's. */
  function DockerSynced(alias: string, guest: bool, contexts: map<string, Context>): map<string, Context> {
    if DockerLines(alias, guest, contexts) == [] then contexts else contexts[alias := Context(Endpoint(alias), true)]
  }

  /** One sync settles a VM's context: then there is one of authama's that points at the VM,
      or the guest has no use for one, or there is somebody else's that points elsewhere,
      which is noted and left as it was. No other VM's plan changes. */
  lemma DockerSettles(alias: string, guest: bool, contexts: map<string, Context>, other: string, others: bool)
    ensures var after := DockerSynced(alias, guest, contexts);
            && DockerLines(alias, guest, after) == []
            && (if alias in after then after[alias] == Context("ssh://" + alias, true) || (after[alias].endpoint != "ssh://" + alias && !after[alias].ours)
                else !guest)
            && (DockerNotes(alias, contexts) != [] <==> alias in contexts && contexts[alias].endpoint != "ssh://" + alias && !contexts[alias].ours)
            && (DockerNotes(alias, contexts) != [] ==> after == contexts && |DockerNotes(alias, contexts)| == 1)
            && (alias in contexts && contexts[alias] == Context("ssh://" + alias, true) ==> after == contexts)
            && (other != alias ==> DockerLines(other, others, after) == DockerLines(other, others, contexts)
                                   && DockerNotes(other, after) == DockerNotes(other, contexts))
  {
  }

  /** vm sync shows the plan's lines and its notes and compares the lines; with no lines
      it changes nothing and asks nobody. */
  function VmSync<H>(lines: H -> seq<string>, notes: H -> seq<string>, apply: seq<Stage<H>>)
    : Command<H, Shown<(seq<string>, seq<string>), seq<string>>>
  {
    QuestionWhen(h => lines(h) != [], h => (lines(h), notes(h)), lines, [], apply)
  }

  /** It asks exactly when it has lines, by lines and notes, and after a yes applies exactly
      when the home it then finds gives the same lines; else nothing. */
  lemma VmSyncDoes<H>(lines: H -> seq<string>, notes: H -> seq<string>, apply: seq<Stage<H>>, seen: H, h: H)
    ensures var c := VmSync(lines, notes, apply);
            && !c.early && (c.asks(h) <==> lines(h) != []) && c.show(h) == Says((lines(h), notes(h)))
            && Effect(c, Agreed(seen), h) == (if lines(h) == lines(seen) then Applied(apply, h) else h)
            && Effect(c, Declined(seen), h) == h
  {
  }

  /** It does what it showed exactly when lines there are settle the notes too. */
  lemma VmSyncExactly<H(!new)>(lines: H -> seq<string>, notes: H -> seq<string>, apply: seq<Stage<H>>)
    ensures NeverMisled(VmSync(lines, notes, apply)) <==>
            forall h, g :: lines(h) == lines(g) != [] ==> notes(h) == notes(g)
  {
    var says, c := h => (lines(h), notes(h)), VmSync(lines, notes, apply);
    AskedOfTwo(c, says, lines);
    assert forall h :: says(h) == (lines(h), notes(h)) && c.asks(h) == (lines(h) != []);
    if NeverMisled(c) {
      forall h, g | lines(h) == lines(g) != [] ensures notes(h) == notes(g) {
        assert c.asks(h);
        assert says(h) == says(g);
      }
    }
  }

  /** The plan for two running VMs, one after the other. */
  function TwoLines(a: string, b: string, guest: bool): map<string, Context> -> seq<string> {
    (h: map<string, Context>) => DockerLines(a, guest, h) + DockerLines(b, guest, h)
  }

  function TwoNotes(a: string, b: string): map<string, Context> -> seq<string> {
    (h: map<string, Context>) => DockerNotes(a, h) + DockerNotes(b, h)
  }

  /** They need not: b's context is to be made, and a's, up to date when the person was
      asked, is somebody else's that points elsewhere by then. */
  lemma VmSyncNotesMove(a: string, b: string, other: string, apply: seq<Stage<map<string, Context>>>)
    requires a != b && other != Endpoint(a)
    ensures !NeverMisled(VmSync(TwoLines(a, b, true), TwoNotes(a, b), apply))
  {
    var lines, notes := TwoLines(a, b, true), TwoNotes(a, b);
    var fine, foreign := map[a := Context(Endpoint(a), true)], map[a := Context(other, false)];
    VmSyncExactly(lines, notes, apply);
    assert DockerLines(a, true, fine) == [] == DockerLines(a, true, foreign);
    assert lines(fine) == [] + DockerLines(b, true, fine) == lines(foreign) && |lines(fine)| == 1;
    assert |notes(fine)| == 0 && |notes(foreign)| == 1;
  }

  // doctor --fix.

  /** It shows the plan's lines and how many stale pins it will remove, compares the lines,
      and fixes modes in any case. It previews without the lock even when nobody is asked;
      with no upkeep to show it asks nothing and fixes modes only, as after a "no". */
  function DoctorFix<H>(lines: H -> seq<string>, stale: H -> nat, fixPerms: Stage<H>, sync: Stage<H>, prune: Stage<H>)
    : Command<H, Shown<seq<string>, seq<string>>>
  {
    QuestionWhen(h => Upkeep(lines(h), stale(h)) != [], h => Upkeep(lines(h), stale(h)), lines, [fixPerms], [sync, prune])
  }

  /** The plan's lines and, with any stale pins, one line more with their number. */
  function Upkeep(lines: seq<string>, stale: nat): seq<string> {
    if stale > 0 then lines + ["remove " + Decimal(stale) + " stale authama pin(s) from known_hosts (hosts no longer in the manifest)"] else lines
  }

  /** It asks exactly when there are lines or stale pins, and shows the lines and one more
      for stale pins. Modes it fixes in any case; after a yes it then syncs and after that
      prunes, each made of the home it finds, exactly when the home, modes fixed, gives the
      same lines. */
  lemma DoctorDoes<H>(lines: H -> seq<string>, stale: H -> nat, fixPerms: Stage<H>, sync: Stage<H>, prune: Stage<H>, seen: H, h: H)
    ensures var c, u := DoctorFix(lines, stale, fixPerms, sync, prune), Upkeep(lines(h), stale(h));
            && !c.early && (c.asks(h) <==> lines(h) != [] || stale(h) > 0) && c.show(h) == Says(u)
            && lines(h) <= u && |u| == |lines(h)| + if stale(h) > 0 then 1 else 0
    ensures var c := DoctorFix(lines, stale, fixPerms, sync, prune);
            var ready := Written(fixPerms(h), h);
            var synced := Written(sync(ready), ready);
            && Effect(c, Agreed(seen), h) == (if lines(ready) == lines(seen) then Written(prune(synced), synced) else ready)
            && Effect(c, Declined(seen), h) == ready
  {
    var ready := Written(fixPerms(h), h);
    var synced := Written(sync(ready), ready);
    assert Applied([fixPerms], h) == Applied([], ready);
    assert [sync, prune][1..] == [prune];
    assert Applied([sync, prune], ready) == Applied([prune], synced) == Applied([], Written(prune(synced), synced));
  }

  lemma UpkeepTells(lines: seq<string>, a: nat, b: nat)
    ensures Upkeep(lines, a) == Upkeep(lines, b) <==> a == b
  {
    if a > 0 && b > 0 && Upkeep(lines, a) == Upkeep(lines, b) {
      var head, tail := "remove ", " stale authama pin(s) from known_hosts (hosts no longer in the manifest)";
      var x, y := head + Decimal(a) + tail, head + Decimal(b) + tail;
      assert x == Upkeep(lines, a)[|lines|] && y == Upkeep(lines, b)[|lines|];
      MiddleTells(head, Decimal(a), Decimal(b), tail);
      NumberOfDecimal(a);
      NumberOfDecimal(b);
    } else if a > 0 || b > 0 {
      assert a != b ==> |Upkeep(lines, a)| != |Upkeep(lines, b)| || (a > 0 && b > 0);
    }
  }

  /** doctor --fix does what was agreed to exactly when, with any upkeep to show, the
      plan's lines settle the number of stale pins too. */
  lemma DoctorExactly<H(!new)>(lines: H -> seq<string>, stale: H -> nat, fixPerms: Stage<H>, sync: Stage<H>, prune: Stage<H>)
    ensures NeverMisled(DoctorFix(lines, stale, fixPerms, sync, prune)) <==>
            forall h, g :: Upkeep(lines(h), stale(h)) != [] && lines(h) == lines(Applied([fixPerms], g)) ==>
                           stale(h) == stale(Applied([fixPerms], g))
  {
    var says, c := h => Upkeep(lines(h), stale(h)), DoctorFix(lines, stale, fixPerms, sync, prune);
    AskedExactly(c, says, lines);
    SaysStale(lines, stale, c.asks, says, [fixPerms]);
  }

  lemma SaysStale<H(!new)>(lines: H -> seq<string>, stale: H -> nat, asks: H -> bool, says: H -> seq<string>, before: seq<Stage<H>>)
    requires forall h :: says(h) == Upkeep(lines(h), stale(h)) && asks(h) == (says(h) != [])
    ensures Settles(asks, says, lines, before) <==>
            forall h, g :: Upkeep(lines(h), stale(h)) != [] && lines(h) == lines(Applied(before, g)) ==>
                           stale(h) == stale(Applied(before, g))
  {
    if Settles(asks, says, lines, before) {
      forall h, g | Upkeep(lines(h), stale(h)) != [] && lines(h) == lines(Applied(before, g))
        ensures stale(h) == stale(Applied(before, g))
      {
        assert asks(h) && says(h) == says(Applied(before, g));
        UpkeepTells(lines(h), stale(h), stale(Applied(before, g)));
      }
    } else {
      var h, g :| asks(h) && lines(h) == lines(Applied(before, g)) && says(h) != says(Applied(before, g));
      assert Upkeep(lines(h), stale(h)) != [] && stale(h) != stale(Applied(before, g));
    }
  }

  /** A home's part doctor --fix looks at: whether modes are right, the hosts the manifest
      has, and the tagged pins. */
  datatype Pins = Pins(modesOk: bool, hosts: set<string>, tagged: seq<string>)

  /** The tagged pins no host uses. */
  function StalePins(h: Pins): seq<string> { Unused(h.tagged, h.hosts) }

  function Unused(pins: seq<string>, hosts: set<string>): seq<string> {
    if pins == [] then [] else (if pins[0] in hosts then [] else [pins[0]]) + Unused(pins[1..], hosts)
  }

  function FixModes(): Stage<Pins> { (h: Pins) => if h.modesOk then [] else [(i: Pins) => i.(modesOk := true)] }

  function Prune(): Stage<Pins> { (h: Pins) => [(i: Pins) => i.(tagged := InUse(h.tagged, h.hosts))] }

  function InUse(pins: seq<string>, hosts: set<string>): seq<string> {
    if pins == [] then [] else (if pins[0] in hosts then [pins[0]] else []) + InUse(pins[1..], hosts)
  }

  /** Fixing modes makes them right, and pruning removes the stale pins and no other, with
      the rest in their order. */
  lemma UpkeepDone(h: Pins)
    ensures Applied([FixModes()], h) == h.(modesOk := true)
    ensures var after := Applied([Prune()], h);
            && after.modesOk == h.modesOk && after.hosts == h.hosts && StalePins(after) == []
            && |after.tagged| + |StalePins(h)| == |h.tagged|
            && forall p :: p in after.tagged <==> p in h.tagged && p in h.hosts
    ensures forall p :: p in StalePins(h) <==> p in h.tagged && p !in h.hosts
  {
    PrunedAre(h.tagged, h.hosts);
    var write := Prune()(h);
    assert Applied([Prune()], h) == Written(write, h) == h.(tagged := InUse(h.tagged, h.hosts));
    FixedModes(h);
  }

  lemma FixedModes(h: Pins)
    ensures Applied([FixModes()], h) == h.(modesOk := true)
  {
    var writes := FixModes()(h);
    assert Applied([FixModes()], h) == Applied([], Written(writes, h)) == Written(writes, h);
    if h.modesOk {
      assert writes == [] && h.(modesOk := true) == h;
    } else {
      assert Written(writes, h) == Written([], writes[0](h));
    }
  }

  lemma {:induction false} PrunedAre(pins: seq<string>, hosts: set<string>)
    ensures Unused(InUse(pins, hosts), hosts) == [] && |InUse(pins, hosts)| + |Unused(pins, hosts)| == |pins|
    ensures forall p :: p in InUse(pins, hosts) <==> p in pins && p in hosts
    ensures forall p :: p in Unused(pins, hosts) <==> p in pins && p !in hosts
  {
    if pins != [] {
      PrunedAre(pins[1..], hosts);
      assert pins == [pins[0]] + pins[1..];
      var kept := InUse(pins[1..], hosts);
      if pins[0] in hosts {
        assert InUse(pins, hosts) == [pins[0]] + kept && ([pins[0]] + kept)[1..] == kept;
        assert Unused([pins[0]] + kept, hosts) == [] + Unused(kept, hosts);
      } else {
        assert InUse(pins, hosts) == kept;
      }
    }
  }

  lemma OneThenTwo(a: string, b: string)
    requires a != b
    ensures StalePins(Pins(true, {b}, [a, b])) == [a] && StalePins(Pins(true, {}, [a, b])) == [a, b]
  {
    assert [a, b][1..] == [b];
    assert Unused([b], {b}) == [] && Unused([b], {}) == [b];
  }

  /** Without VMs its plan has no lines, and settles nothing: one stale pin is agreed to, a
      host is deleted while the person reads, and two pins are removed. */
  lemma DoctorRemovesMore(a: string, b: string)
    requires a != b
    ensures !NeverMisled(DoctorFix((h: Pins) => [], (h: Pins) => |StalePins(h)|, FixModes(), (h: Pins) => [], Prune()))
  {
    var lines: Pins -> seq<string>, stale: Pins -> nat := (h: Pins) => [], (h: Pins) => |StalePins(h)|;
    var shown, found := Pins(true, {b}, [a, b]), Pins(true, {}, [a, b]);
    DoctorExactly(lines, stale, FixModes(), (h: Pins) => [], Prune());
    FixedModes(found);
    OneThenTwo(a, b);
    assert stale(shown) == 1 && stale(found) == 2;
  }
}
