/** Presence-based auto-VEX (crates/sceau-vex): `not_affected` statements for the findings
    whose package is in no SBOM and which nobody has triaged yet. */
module AutoVex {
  import opened Wrappers

  datatype GrypeMatch = GrypeMatch(cve: string, purl: Option<string>)

  /** The purls of the components; a component may have none. */
  datatype Sbom = Sbom(components: Option<seq<Option<string>>>)

  datatype Statement = Statement(
    vulnerability: string,
    products: seq<string>,
    status: string,
    justification: string,
    impactStatement: string,
    timestamp: string)

  const AUTO_IMPACT_STATEMENT :=
    "Auto-derived by auto-vex-presence: the vulnerable component's package URL is not present in any release SBOM, so the CVE cannot be exploited against this product."

  function AutoStatement(cve: string, productPurl: string, timestamp: string): Statement {
    Statement(cve, [productPurl], "not_affected", "component_not_present", AUTO_IMPACT_STATEMENT, timestamp)
  }

  // ----- The order of BTreeMap<String, _> -----

  predicate Less(a: string, b: string) {
    b != [] && (a == [] || a[0] < b[0] || (a[0] == b[0] && Less(a[1..], b[1..])))
  }

  lemma {:induction false} LessTotal(a: string, b: string)
    ensures Less(a, b) || a == b || Less(b, a)
    ensures !(Less(a, b) && Less(b, a)) && !Less(a, a)
  {
    if a != [] {
      LessTotal(a[1..], a[1..]);
      if b != [] && a[0] == b[0] {
        LessTotal(a[1..], b[1..]);
        assert a == [a[0]] + a[1..] && b == [b[0]] + b[1..];
      }
    }
  }

  lemma {:induction false} LessTransitive(a: string, b: string, c: string)
    requires Less(a, b) && Less(b, c)
    ensures Less(a, c)
  {
    if a != [] && a[0] == b[0] && b[0] == c[0] {
      LessTransitive(a[1..], b[1..], c[1..]);
    }
  }

  /** The strings agree up to `k`, and there the first one ends or has the smaller character. */
  predicate FirstDifference(a: string, b: string, k: nat) {
    k <= |a| && k < |b| && a[..k] == b[..k] && (k == |a| || a[k] < b[k])
  }

  lemma DifferenceInTail(a: string, b: string, k: nat)
    requires a != [] && b != [] && a[0] == b[0]
    ensures FirstDifference(a, b, k + 1) <==> FirstDifference(a[1..], b[1..], k)
  {
    if k < |a| && k + 1 < |b| {
      assert a[..k + 1] == [a[0]] + a[1..][..k] && b[..k + 1] == [b[0]] + b[1..][..k];
      assert a[1..][..k] == a[..k + 1][1..] && b[1..][..k] == b[..k + 1][1..];
    }
  }

  /** Two strings in order differ somewhere in this way. */
  lemma {:induction false} LessDiffers(a: string, b: string) returns (k: nat)
    requires Less(a, b)
    ensures FirstDifference(a, b, k)
  {
    k := 0;
    if a != [] && a[0] == b[0] {
      k := LessDiffers(a[1..], b[1..]);
      DifferenceInTail(a, b, k);
      k := k + 1;
    }
  }

  lemma {:induction false} DiffersLess(a: string, b: string, k: nat)
    requires FirstDifference(a, b, k)
    ensures Less(a, b)
  {
    if k > 0 {
      assert a[0] == a[..k][0] == b[..k][0] == b[0];
      DifferenceInTail(a, b, k - 1);
      DiffersLess(a[1..], b[1..], k - 1);
    }
  }

  /** `Less` is the lexicographic order: at the first difference the smaller character, or a
      proper prefix, comes first. */
  lemma LessIsLexicographic(a: string, b: string)
    ensures Less(a, b) <==> exists k :: 0 <= k && FirstDifference(a, b, k)
  {
    if Less(a, b) {
      var k := LessDiffers(a, b);
    }
    if k :| 0 <= k && FirstDifference(a, b, k) {
      DiffersLess(a, b, k);
    }
  }

  ghost predicate Increasing(statements: seq<Statement>) {
    forall i, j :: 0 <= i < j < |statements| ==> Less(statements[i].vulnerability, statements[j].vulnerability)
  }

  function Ids(statements: seq<Statement>): set<string> {
    set s | s in statements :: s.vulnerability
  }

  /** Insertion of a new key into the ordered map, seen as its list of values. */
  function Insert(statements: seq<Statement>, s: Statement): seq<Statement> {
    if statements == [] || Less(s.vulnerability, statements[0].vulnerability) then [s] + statements
    else [statements[0]] + Insert(statements[1..], s)
  }

  lemma {:induction false} InsertMembers(statements: seq<Statement>, s: Statement)
    ensures forall x :: x in Insert(statements, s) <==> x == s || x in statements
  {
    if statements != [] && !Less(s.vulnerability, statements[0].vulnerability) {
      InsertMembers(statements[1..], s);
      assert statements == [statements[0]] + statements[1..];
    }
  }

  lemma PrependIncreasing(head: Statement, rest: seq<Statement>)
    requires Increasing(rest) && forall x :: x in rest ==> Less(head.vulnerability, x.vulnerability)
    ensures Increasing([head] + rest)
  {
    var out := [head] + rest;
    assert forall j :: 0 < j < |out| ==> out[j] == rest[j - 1] && rest[j - 1] in rest;
  }

  lemma HeadIsLeast(statements: seq<Statement>)
    requires statements != [] && Increasing(statements)
    ensures Increasing(statements[1..])
    ensures forall x :: x in statements[1..] ==> Less(statements[0].vulnerability, x.vulnerability)
  {
    forall x | x in statements[1..] ensures Less(statements[0].vulnerability, x.vulnerability) {
      var k :| 0 <= k < |statements[1..]| && statements[1..][k] == x;
      assert statements[k + 1] == x;
    }
  }

  lemma {:induction false} InsertIncreasing(statements: seq<Statement>, s: Statement)
    requires Increasing(statements) && s.vulnerability !in Ids(statements)
    ensures Increasing(Insert(statements, s))
  {
    if statements == [] {
    } else if Less(s.vulnerability, statements[0].vulnerability) {
      HeadIsLeast(statements);
      forall x | x in statements ensures Less(s.vulnerability, x.vulnerability) {
        if x != statements[0] { LessTransitive(s.vulnerability, statements[0].vulnerability, x.vulnerability); }
      }
      PrependIncreasing(s, statements);
    } else {
      HeadIsLeast(statements);
      assert statements[0] in statements;
      assert forall x :: x in statements[1..] ==> x in statements;
      InsertIncreasing(statements[1..], s);
      InsertMembers(statements[1..], s);
      LessTotal(s.vulnerability, statements[0].vulnerability);
      PrependIncreasing(statements[0], Insert(statements[1..], s));
    }
  }

  // ----- The derivation -----

  /** Some component of some SBOM has this purl. */
  ghost predicate InSboms(sboms: seq<Sbom>, purl: string) {
    exists s :: s in sboms && s.components.Some? && Some(purl) in s.components.value
  }

  function SbomPurls(sboms: seq<Sbom>): (purls: set<string>)
    ensures forall purl :: purl in purls <==> InSboms(sboms, purl)
  {
    set s, p | s in sboms && s.components.Some? && p in s.components.value && p.Some? :: p.value
  }

  /** The match names a package and no SBOM contains it. */
  ghost predicate Absent(m: GrypeMatch, sboms: seq<Sbom>) {
    m.purl.Some? && m.purl.value != "" && !InSboms(sboms, m.purl.value)
  }

  /** Not triaged, and some match of the CVE is absent, even if another one is present. */
  ghost predicate Derivable(matches: seq<GrypeMatch>, sboms: seq<Sbom>, triaged: set<string>, cve: string) {
    cve !in triaged && exists m :: m in matches && m.cve == cve && Absent(m, sboms)
  }

  /** The output as a set specification with an order: it determines the sequence. */
  ghost predicate IsPresenceVex(matches: seq<GrypeMatch>, sboms: seq<Sbom>, triaged: set<string>,
                                productPurl: string, timestamp: string, out: seq<Statement>)
  {
    && Increasing(out)
    && (forall cve :: cve in Ids(out) <==> Derivable(matches, sboms, triaged, cve))
    && (forall s :: s in out ==> s == AutoStatement(s.vulnerability, productPurl, timestamp))
  }

  /** The match has a non-empty purl that no component of any SBOM has. */
  ghost predicate Unmatched(m: GrypeMatch, sboms: seq<Sbom>) {
    m.purl.Some? && |m.purl.value| > 0 && forall b :: b in sboms && b.components.Some? ==> m.purl !in b.components.value
  }

  /** The same in plain terms: what every statement says, and which CVEs get one. */
  ghost predicate SpelledOut(matches: seq<GrypeMatch>, sboms: seq<Sbom>, triaged: set<string>,
                             productPurl: string, timestamp: string, out: seq<Statement>)
  {
    && (forall s :: s in out ==>
          && s.products == [productPurl] && s.status == "not_affected" && s.justification == "component_not_present"
          && s.timestamp == timestamp
          && s.impactStatement == "Auto-derived by auto-vex-presence: the vulnerable component's package URL is not present in any release SBOM, so the CVE cannot be exploited against this product.")
    && forall cve :: (exists s :: s in out && s.vulnerability == cve) <==>
         cve !in triaged && exists m :: m in matches && m.cve == cve && Unmatched(m, sboms)
  }

  method ComputePresenceVex(matches: seq<GrypeMatch>, sboms: seq<Sbom>, triaged: set<string>,
                            productPurl: string, timestamp: string)
    returns (emitted: seq<Statement>)
    ensures IsPresenceVex(matches, sboms, triaged, productPurl, timestamp, emitted)
    ensures SpelledOut(matches, sboms, triaged, productPurl, timestamp, emitted)
  {
    var sbomPurls := SbomPurls(sboms);
    emitted := [];
    for i := 0 to |matches|
      invariant IsPresenceVex(matches[..i], sboms, triaged, productPurl, timestamp, emitted)
    {
      var m := matches[i];
      assert matches[..i + 1] == matches[..i] + [m];
      DerivableStep(matches[..i], m, sboms, triaged);
      if m.cve in triaged || m.cve in Ids(emitted) { continue; }
      if m.purl.None? || m.purl.value == "" { continue; }
      if m.purl.value in sbomPurls { continue; }
      var statement := AutoStatement(m.cve, productPurl, timestamp);
      InsertMembers(emitted, statement);
      InsertIncreasing(emitted, statement);
      IdsOfInsert(emitted, statement);
      emitted := Insert(emitted, statement);
    }
    assert matches[..|matches|] == matches;
    PresenceSpelledOut(matches, sboms, triaged, productPurl, timestamp, emitted);
  }

  lemma UnmatchedIsAbsent(m: GrypeMatch, sboms: seq<Sbom>)
    ensures Unmatched(m, sboms) <==> Absent(m, sboms)
  {
    if m.purl.Some? { assert m.purl == Some(m.purl.value); }
  }

  lemma PresenceSpelledOut(matches: seq<GrypeMatch>, sboms: seq<Sbom>, triaged: set<string>,
                           productPurl: string, timestamp: string, out: seq<Statement>)
    requires IsPresenceVex(matches, sboms, triaged, productPurl, timestamp, out)
    ensures SpelledOut(matches, sboms, triaged, productPurl, timestamp, out)
  {
    forall cve ensures (exists s :: s in out && s.vulnerability == cve) <==>
                         cve !in triaged && exists m :: m in matches && m.cve == cve && Unmatched(m, sboms)
    {
      assert cve in Ids(out) <==> Derivable(matches, sboms, triaged, cve);
      if Derivable(matches, sboms, triaged, cve) {
        var m :| m in matches && m.cve == cve && Absent(m, sboms);
        UnmatchedIsAbsent(m, sboms);
      }
      if m :| m in matches && m.cve == cve && Unmatched(m, sboms) {
        UnmatchedIsAbsent(m, sboms);
      }
    }
  }

  lemma DerivableStep(matches: seq<GrypeMatch>, m: GrypeMatch, sboms: seq<Sbom>, triaged: set<string>)
    ensures forall cve :: Derivable(matches + [m], sboms, triaged, cve) <==>
              Derivable(matches, sboms, triaged, cve) || (cve == m.cve && cve !in triaged && Absent(m, sboms))
  {
    forall cve
      ensures Derivable(matches + [m], sboms, triaged, cve) <==>
                Derivable(matches, sboms, triaged, cve) || (cve == m.cve && cve !in triaged && Absent(m, sboms))
    {
      assert m in matches + [m];
      assert forall x :: x in matches + [m] <==> x in matches || x == m;
    }
  }

  lemma IdsOfInsert(statements: seq<Statement>, s: Statement)
    ensures Ids(Insert(statements, s)) == Ids(statements) + {s.vulnerability}
  {
    InsertMembers(statements, s);
    assert s in Insert(statements, s);
    forall cve | cve in Ids(statements) ensures cve in Ids(Insert(statements, s)) {
      var x :| x in statements && x.vulnerability == cve;
      assert x in Insert(statements, s);
    }
  }

  // ----- What the specification determines -----

  lemma SameFirstId(a: seq<Statement>, b: seq<Statement>)
    requires Increasing(a) && Increasing(b) && Ids(a) == Ids(b) && a != [] && b != []
    ensures a[0].vulnerability == b[0].vulnerability
  {
    assert a[0].vulnerability in Ids(b) && b[0].vulnerability in Ids(a);
    var j :| 0 <= j < |b| && b[j].vulnerability == a[0].vulnerability;
    var i :| 0 <= i < |a| && a[i].vulnerability == b[0].vulnerability;
    LessTotal(a[0].vulnerability, b[0].vulnerability);
  }

  /** An increasing sequence of such statements is determined by its ids. */
  lemma {:induction false} Canonical(a: seq<Statement>, b: seq<Statement>, productPurl: string, timestamp: string)
    requires Increasing(a) && Increasing(b) && Ids(a) == Ids(b)
    requires forall s :: s in a || s in b ==> s == AutoStatement(s.vulnerability, productPurl, timestamp)
    ensures a == b
  {
    if a == [] {
      assert b != [] ==> b[0].vulnerability in Ids(b);
    } else {
      assert a[0].vulnerability in Ids(b);
      SameFirstId(a, b);
      assert a[0] in a && b[0] in b;
      TailIds(a);
      TailIds(b);
      Canonical(a[1..], b[1..], productPurl, timestamp);
      assert a == [a[0]] + a[1..] && b == [b[0]] + b[1..];
    }
  }

  lemma TailIds(a: seq<Statement>)
    requires a != [] && Increasing(a)
    ensures Ids(a[1..]) == Ids(a) - {a[0].vulnerability}
  {
    LessTotal(a[0].vulnerability, a[0].vulnerability);
    assert a == [a[0]] + a[1..];
    forall s | s in a[1..] ensures s.vulnerability != a[0].vulnerability {
      var k :| 0 <= k < |a[1..]| && a[1..][k] == s;
      assert a[k + 1] == s;
      LessTotal(a[0].vulnerability, s.vulnerability);
    }
  }

  /** Reordering or repeating matches, SBOMs, components or triage entries changes nothing:
      two runs over the same sets produce the same sequence. */
  lemma OrderIrrelevant(matches: seq<GrypeMatch>, matches': seq<GrypeMatch>, sboms: seq<Sbom>, sboms': seq<Sbom>,
                        triaged: set<string>, productPurl: string, timestamp: string,
                        out: seq<Statement>, out': seq<Statement>)
    requires IsPresenceVex(matches, sboms, triaged, productPurl, timestamp, out)
    requires IsPresenceVex(matches', sboms', triaged, productPurl, timestamp, out')
    requires forall m :: m in matches <==> m in matches'
    requires forall purl :: InSboms(sboms, purl) <==> InSboms(sboms', purl)
    ensures out == out'
  {
    assert forall cve :: Derivable(matches, sboms, triaged, cve) <==> Derivable(matches', sboms', triaged, cve);
    assert Ids(out) == Ids(out');
    Canonical(out, out', productPurl, timestamp);
  }

  /** More SBOM components or more triage can only remove statements, and what remains is
      unchanged. */
  lemma ShrinksAsInputsGrow(matches: seq<GrypeMatch>, sboms: seq<Sbom>, sboms': seq<Sbom>,
                            triaged: set<string>, triaged': set<string>, productPurl: string, timestamp: string,
                            out: seq<Statement>, out': seq<Statement>)
    requires IsPresenceVex(matches, sboms, triaged, productPurl, timestamp, out)
    requires IsPresenceVex(matches, sboms', triaged', productPurl, timestamp, out')
    requires (forall purl :: InSboms(sboms, purl) ==> InSboms(sboms', purl)) && triaged <= triaged'
    ensures forall s :: s in out' ==> s in out
  {
    forall s | s in out' ensures s in out {
      assert s.vulnerability in Ids(out');
      assert Derivable(matches, sboms, triaged, s.vulnerability);
      assert s.vulnerability in Ids(out);
      var x :| x in out && x.vulnerability == s.vulnerability;
    }
  }

  /** Once its own ids count as triaged, the derivation has nothing left to say. */
  lemma NothingTwice(matches: seq<GrypeMatch>, sboms: seq<Sbom>, triaged: set<string>, triaged': set<string>,
                     productPurl: string, timestamp: string, productPurl': string, timestamp': string,
                     out: seq<Statement>, out': seq<Statement>)
    requires IsPresenceVex(matches, sboms, triaged, productPurl, timestamp, out)
    requires IsPresenceVex(matches, sboms, triaged', productPurl', timestamp', out')
    requires triaged + Ids(out) <= triaged'
    ensures out' == []
  {
    forall cve ensures cve !in Ids(out') {
      assert Derivable(matches, sboms, triaged', cve) ==> Derivable(matches, sboms, triaged, cve);
    }
    assert out' != [] ==> out'[0].vulnerability in Ids(out');
  }

  // ----- The triage directory -----

  datatype IoError = CannotList | CannotReadEntry | CannotReadFile | BadJson | NoComponents

  /** A file with its parsed content: the vulnerability names of its statements. */
  datatype Entry = Entry(name: string, content: Result<seq<string>, IoError>)

  datatype Directory = Missing | Unlistable | Listing(entries: seq<Result<Entry, IoError>>)

  /** `*.json` with a non-empty stem, and no dot-file. */
  predicate Considered(name: string) {
    |name| > 5 && name[|name| - 5..] == ".json" && name[0] != '.'
  }

  lemma ConsideredNames(name: string)
    ensures Considered(name) <==> exists stem: string :: stem != "" && stem[0] != '.' && name == stem + ".json"
  {
    if Considered(name) {
      var stem := name[..|name| - 5];
      assert name == stem + ".json";
    }
  }

  /** Why an entry makes the whole load fail, if it does. */
  function EntryError(entry: Result<Entry, IoError>): Option<IoError> {
    match entry
    case Err(e) => Some(e)
    case Ok(Entry(name, Err(e))) => if Considered(name) then Some(e) else None
    case Ok(_) => None
  }

  /** `cve` is named by a statement of a considered file. */
  ghost predicate Named(entries: seq<Result<Entry, IoError>>, cve: string) {
    exists e :: e in entries && e.Ok? && Considered(e.value.name) && e.value.content.Ok? && cve in e.value.content.value
  }

  /** Success is exactly the names in all considered files; a missing directory is empty;
      the first bad entry fails the whole load. */
  ghost predicate IsTriaged(dir: Directory, r: Result<set<string>, IoError>) {
    match dir
    case Missing => r == Ok({})
    case Unlistable => r == Err(CannotList)
    case Listing(entries) =>
      match r
      case Ok(triaged) =>
        && (forall e :: e in entries ==> EntryError(e) == None)
        && (forall cve :: cve in triaged <==> Named(entries, cve))
      case Err(error) =>
        exists i :: 0 <= i < |entries| && EntryError(entries[i]) == Some(error)
                    && forall j :: 0 <= j < i ==> EntryError(entries[j]) == None
  }

  method LoadTriagedFromVexDir(dir: Directory) returns (r: Result<set<string>, IoError>)
    ensures IsTriaged(dir, r)
    ensures dir.Missing? ==> r == Ok({})
    ensures dir.Unlistable? ==> r.Err?
  {
    if dir.Missing? { return Ok({}); }
    if dir.Unlistable? { return Err(CannotList); }
    var entries := dir.entries;
    var triaged: set<string> := {};
    for i := 0 to |entries|
      invariant forall j :: 0 <= j < i ==> EntryError(entries[j]) == None
      invariant forall cve :: cve in triaged <==> Named(entries[..i], cve)
    {
      assert entries[..i + 1] == entries[..i] + [entries[i]];
      NamedStep(entries[..i], entries[i]);
      if entries[i].Err? { return Err(entries[i].error); }
      var entry := entries[i].value;
      if !Considered(entry.name) { continue; }
      if entry.content.Err? { return Err(entry.content.error); }
      triaged := triaged + set name | name in entry.content.value;
    }
    assert entries[..|entries|] == entries;
    return Ok(triaged);
  }

  /** A file `<stem>.json` that is no dot-file counts: if it cannot be read or parsed the whole
      load fails, and otherwise every name in it is triaged. */
  lemma FileCounts(dir: Directory, r: Result<set<string>, IoError>, stem: string, content: Result<seq<string>, IoError>)
    requires IsTriaged(dir, r) && dir.Listing?
    requires stem != "" && stem[0] != '.' && Ok(Entry(stem + ".json", content)) in dir.entries
    ensures content.Err? ==> r.Err?
    ensures content.Ok? && r.Ok? ==> forall cve :: cve in content.value ==> cve in r.value
  {
    ConsideredNames(stem + ".json");
    if r.Ok? {
      assert EntryError(Ok(Entry(stem + ".json", content))) == None;
      forall cve | content.Ok? && cve in content.value ensures Named(dir.entries, cve) {
      }
    }
  }

  /** Any other file is ignored, whatever is in it; an entry that cannot be read is not. */
  lemma OtherFilesIgnored(entries: seq<Result<Entry, IoError>>, e: Result<Entry, IoError>,
                          r: Result<set<string>, IoError>, r': Result<set<string>, IoError>)
    requires IsTriaged(Listing(entries), r) && IsTriaged(Listing(entries + [e]), r')
    ensures e.Err? ==> r'.Err?
    ensures e.Ok? && !(exists stem: string :: stem != "" && stem[0] != '.' && e.value.name == stem + ".json") ==>
              (r.Ok? <==> r'.Ok?) && (r.Ok? ==> r == r')
  {
    NamedStep(entries, e);
    LoadsUnlessBad(entries, r);
    LoadsUnlessBad(entries + [e], r');
    assert e in entries + [e];
    assert forall x :: x in entries + [e] <==> x in entries || x == e;
    if e.Ok? {
      ConsideredNames(e.value.name);
      if !Considered(e.value.name) && r.Ok? && r'.Ok? { assert r.value == r'.value; }
    }
  }

  lemma NamedStep(entries: seq<Result<Entry, IoError>>, e: Result<Entry, IoError>)
    ensures forall cve :: Named(entries + [e], cve) <==>
              Named(entries, cve) || (e.Ok? && Considered(e.value.name) && e.value.content.Ok? && cve in e.value.content.value)
  {
    assert e in entries + [e];
    assert forall x :: x in entries + [e] <==> x in entries || x == e;
  }

  lemma LoadsUnlessBad(entries: seq<Result<Entry, IoError>>, r: Result<set<string>, IoError>)
    requires IsTriaged(Listing(entries), r)
    ensures r.Ok? <==> forall e :: e in entries ==> EntryError(e) == None
  {
    if r.Err? {
      var i :| 0 <= i < |entries| && EntryError(entries[i]) == Some(r.error);
      assert entries[i] in entries;
    }
  }

  /** The order in which the directory is listed does not matter. */
  lemma ListingOrderIrrelevant(entries: seq<Result<Entry, IoError>>, entries': seq<Result<Entry, IoError>>,
                               r: Result<set<string>, IoError>, r': Result<set<string>, IoError>)
    requires IsTriaged(Listing(entries), r) && IsTriaged(Listing(entries'), r')
    requires forall e :: e in entries <==> e in entries'
    ensures r.Ok? <==> r'.Ok?
    ensures r.Ok? ==> r == r'
  {
    LoadsUnlessBad(entries, r);
    LoadsUnlessBad(entries', r');
    if r.Ok? && r'.Ok? {
      assert forall cve :: Named(entries, cve) <==> Named(entries', cve);
      assert r.value == r'.value;
    }
  }

  // ----- The tool -----

  /** It parsed and has at least one component. */
  predicate Usable(sbom: Result<Sbom, IoError>) {
    sbom.Ok? && sbom.value.components.Some? && sbom.value.components.value != []
  }

  /** `error` is what the first unusable input fails with. */
  ghost predicate FirstUnusable(inputs: seq<Result<Sbom, IoError>>, error: IoError) {
    exists i :: 0 <= i < |inputs| && !Usable(inputs[i]) && (forall j :: 0 <= j < i ==> Usable(inputs[j]))
                && error == if inputs[i].Err? then inputs[i].error else NoComponents
  }

  /** The triage directory is missing, or listable without a bad entry. */
  ghost predicate Loadable(dir: Directory) {
    dir.Missing? || (dir.Listing? && forall e :: e in dir.entries ==> EntryError(e) == None)
  }

  lemma LoadableIsTriaged(dir: Directory, r: Result<set<string>, IoError>)
    requires IsTriaged(dir, r)
    ensures r.Ok? <==> Loadable(dir)
    ensures r.Ok? ==> forall triaged :: IsTriaged(dir, Ok(triaged)) ==> triaged == r.value
  {
    if dir.Listing? { LoadsUnlessBad(dir.entries, r); }
  }

  /** `sboms` is what the inputs parsed to, in order. */
  ghost predicate ParsedTo(inputs: seq<Result<Sbom, IoError>>, sboms: seq<Sbom>) {
    |sboms| == |inputs| && forall i :: 0 <= i < |inputs| ==> inputs[i] == Ok(sboms[i])
  }

  lemma ParsedToUnique(inputs: seq<Result<Sbom, IoError>>, sboms: seq<Sbom>, sboms': seq<Sbom>)
    requires ParsedTo(inputs, sboms) && ParsedTo(inputs, sboms')
    ensures sboms == sboms'
  {
    assert forall i :: 0 <= i < |inputs| ==> Ok(sboms[i]) == inputs[i] == Ok(sboms'[i]);
  }

  /** The first input that does not parse or has no component fails the whole load. */
  method LoadSboms(inputs: seq<Result<Sbom, IoError>>) returns (r: Result<seq<Sbom>, IoError>)
    ensures r.Ok? <==> forall i :: 0 <= i < |inputs| ==> Usable(inputs[i])
    ensures r.Ok? ==> ParsedTo(inputs, r.value)
    ensures r.Err? ==> FirstUnusable(inputs, r.error)
    ensures r.Ok? ==> forall s :: s in r.value ==> s.components.Some? && |s.components.value| > 0
    ensures inputs != [] && inputs[0].Err? ==> r == Err(inputs[0].error)
    ensures inputs != [] && (inputs[0] == Ok(Sbom(None)) || inputs[0] == Ok(Sbom(Some([])))) ==> r == Err(NoComponents)
    ensures Ok(Sbom(None)) in inputs || Ok(Sbom(Some([]))) in inputs || (exists s :: s in inputs && s.Err?) ==> r.Err?
  {
    var sboms: seq<Sbom> := [];
    for i := 0 to |inputs|
      invariant |sboms| == i && forall j :: 0 <= j < i ==> inputs[j] == Ok(sboms[j]) && Usable(inputs[j])
    {
      if inputs[i].Err? { return Err(inputs[i].error); }
      if !Usable(inputs[i]) { return Err(NoComponents); }
      sboms := sboms + [inputs[i].value];
    }
    return Ok(sboms);
  }

  /** Loads every SBOM, refusing one without components, then the triage, then derives. Any
      unusable input means no statement at all. */
  method AutoVexPresence(matches: seq<GrypeMatch>, inputs: seq<Result<Sbom, IoError>>, dir: Directory,
                         productPurl: string, timestamp: string)
    returns (r: Result<seq<Statement>, IoError>)
    ensures r.Ok? <==> Loadable(dir) && forall i :: 0 <= i < |inputs| ==> Usable(inputs[i])
    ensures Ok(Sbom(None)) in inputs || Ok(Sbom(Some([]))) in inputs || (exists s :: s in inputs && s.Err?) ==> r.Err?
    ensures r.Ok? ==> forall sboms, triaged :: ParsedTo(inputs, sboms) && IsTriaged(dir, Ok(triaged)) ==>
                                                 && IsPresenceVex(matches, sboms, triaged, productPurl, timestamp, r.value)
                                                 && SpelledOut(matches, sboms, triaged, productPurl, timestamp, r.value)
    ensures r.Err? ==>
              if forall i :: 0 <= i < |inputs| ==> Usable(inputs[i]) then IsTriaged(dir, Err(r.error))
              else FirstUnusable(inputs, r.error)
  {
    var loaded := LoadSboms(inputs);
    if loaded.Err? { return Err(loaded.error); }
    var triaged := LoadTriagedFromVexDir(dir);
    LoadableIsTriaged(dir, triaged);
    if triaged.Err? { return Err(triaged.error); }
    var statements := ComputePresenceVex(matches, loaded.value, triaged.value, productPurl, timestamp);
    forall sboms | ParsedTo(inputs, sboms) ensures sboms == loaded.value {
      ParsedToUnique(inputs, sboms, loaded.value);
    }
    return Ok(statements);
  }

  /** Feeding the derived statements back as a considered file of the triage directory makes
      the next derivation empty. */
  lemma RerunIsEmpty(matches: seq<GrypeMatch>, sboms: seq<Sbom>, entries: seq<Result<Entry, IoError>>, name: string,
                     productPurl: string, timestamp: string, triaged: set<string>, triaged': Result<set<string>, IoError>,
                     out: seq<Statement>, out': seq<Statement>)
    requires Considered(name) && IsTriaged(Listing(entries), Ok(triaged))
    requires IsPresenceVex(matches, sboms, triaged, productPurl, timestamp, out)
    requires IsTriaged(Listing(entries + [Ok(Entry(name, Ok(seq(|out|, i requires 0 <= i < |out| => out[i].vulnerability))))]), triaged')
    requires triaged'.Ok? ==> IsPresenceVex(matches, sboms, triaged'.value, productPurl, timestamp, out')
    ensures triaged'.Ok? && out' == []
  {
    var names := seq(|out|, i requires 0 <= i < |out| => out[i].vulnerability);
    var file: Result<Entry, IoError> := Ok(Entry(name, Ok(names)));
    NamedStep(entries, file);
    LoadsUnlessBad(entries + [file], triaged');
    forall cve | cve in Ids(out) ensures cve in names {
      var s :| s in out && s.vulnerability == cve;
      var k :| 0 <= k < |out| && out[k] == s;
      assert names[k] == cve;
    }
    NothingTwice(matches, sboms, triaged, triaged'.value, productPurl, timestamp, productPurl, timestamp, out, out');
  }
}
