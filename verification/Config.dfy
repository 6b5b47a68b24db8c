/** The list of remote brokers in PEAT_MESH_BROKERS (src/config.rs). */
module Config {
  import opened Models
  import opened Lex
  import Manager

  datatype Mapping = Mapping(org: string, app: string, baseUrl: string, collections: seq<string>)

  /** Which field an entry lacks. */
  datatype Lack = MissingOrg(entry: string) | MissingApp(entry: string) | MissingUrl(entry: string)

  datatype Parsed<+T> = Yes(value: T) | No(lack: Lack)

  const DEFAULT_COLLECTIONS := ["cot-broadcast", "contacts", "markers", "missions"]

  // --- Rust's string functions ---

  /** `split(sep)`: the pieces between the separators, at least one. */
  function Split(s: string, sep: char): (r: seq<string>)
    ensures r != []
  {
    if s == [] then [[]] else Glue(s[0], sep, Split(s[1..], sep))
  }

  function Glue(c: char, sep: char, pieces: seq<string>): (r: seq<string>)
    requires pieces != []
    ensures r != []
  {
    if c == sep then [[]] + pieces else [[c] + pieces[0]] + pieces[1..]
  }

  function TrimStart(s: string): string { if s != [] && Manager.White(s[0]) then TrimStart(s[1..]) else s }

  function TrimEnd(s: string): string
  {
    if s != [] && Manager.White(s[|s| - 1]) then TrimEnd(s[..|s| - 1]) else s
  }

  function Trim(s: string): string { TrimEnd(TrimStart(s)) }

  /** `trim_end_matches('/')`. */
  function TrimSlashes(s: string): string
  {
    if s != [] && s[|s| - 1] == '/' then TrimSlashes(s[..|s| - 1]) else s
  }

  /** The trimmed pieces that are not empty. */
  function NonBlank(pieces: seq<string>): seq<string>
  {
    if pieces == [] then [] else
      (if Trim(pieces[0]) == [] then [] else [Trim(pieces[0])]) + NonBlank(pieces[1..])
  }

  // --- The parser ---

  /** The n-th field, trimmed; empty if there is none. */
  function FieldAt(fields: seq<string>, n: nat): string { if n < |fields| then Trim(fields[n]) else [] }

  function Collections(fields: seq<string>): seq<string>
  {
    var listed := if 3 < |fields| then NonBlank(Split(Trim(fields[3]), ',')) else [];
    if listed == [] then DEFAULT_COLLECTIONS else listed
  }

  function ParseEntry(entry: string): Parsed<Mapping>
  {
    var fields := Split(entry, '|');
    if FieldAt(fields, 0) == [] then No(MissingOrg(entry))
    else if FieldAt(fields, 1) == [] then No(MissingApp(entry))
    else if FieldAt(fields, 2) == [] then No(MissingUrl(entry))
    else Yes(Mapping(FieldAt(fields, 0), FieldAt(fields, 1), TrimSlashes(FieldAt(fields, 2)), Collections(fields)))
  }

  /** The entries in turn, up to the first that fails. */
  function ParseEntries(entries: seq<string>): Parsed<seq<Mapping>>
  {
    if entries == [] then Yes([])
    else match ParseEntry(entries[0])
      case No(lack) => No(lack)
      case Yes(m) => After([m], ParseEntries(entries[1..]))
  }

  function After(done: seq<Mapping>, rest: Parsed<seq<Mapping>>): Parsed<seq<Mapping>>
  {
    match rest case Yes(ms) => Yes(done + ms) case No(lack) => No(lack)
  }

  function Parse(raw: string): Parsed<seq<Mapping>> { ParseEntries(NonBlank(Split(raw, ';'))) }

  lemma AfterAfter(a: seq<Mapping>, b: seq<Mapping>, rest: Parsed<seq<Mapping>>)
    ensures After(a, After(b, rest)) == After(a + b, rest)
  {
    if rest.Yes? { Reassociate(a, b, rest.value); }
  }

  method ParseFields(entry: string) returns (r: Parsed<Mapping>)
    ensures r == ParseEntry(entry)
  {
    var fields := Split(entry, '|');
    var next := 0;
    var org := FieldAt(fields, next);
    if org == [] {
      return No(MissingOrg(entry));
    }
    next := next + 1;
    var app := FieldAt(fields, next);
    if app == [] {
      return No(MissingApp(entry));
    }
    next := next + 1;
    var url := FieldAt(fields, next);
    if url == [] {
      return No(MissingUrl(entry));
    }
    return Yes(Mapping(org, app, TrimSlashes(url), Collections(fields)));
  }

  /** parse_mesh_broker_mappings. */
  method ParseMeshBrokerMappings(raw: Option<string>) returns (r: Parsed<seq<Mapping>>)
    ensures r == if raw.None? then Yes([]) else Parse(raw.value)
  {
    if raw.None? {
      return Yes([]);
    }
    var entries := NonBlank(Split(raw.value, ';'));
    var mappings: seq<Mapping> := [];
    AfterNothing(ParseEntries(entries));
    assert entries[0..] == entries;
    for i := 0 to |entries|
      invariant ParseEntries(entries) == After(mappings, ParseEntries(entries[i..]))
    {
      assert entries[i..][1..] == entries[i + 1..];
      var parsed := ParseFields(entries[i]);
      if parsed.No? {
        return No(parsed.lack);
      }
      AfterAfter(mappings, [parsed.value], ParseEntries(entries[i + 1..]));
      mappings := mappings + [parsed.value];
    }
    assert entries[|entries|..] == [] && mappings + [] == mappings;
    return Yes(mappings);
  }

  lemma AfterNothing(rest: Parsed<seq<Mapping>>)
    ensures After([], rest) == rest
  {
    assert rest.Yes? ==> [] + rest.value == rest.value;
  }

  // --- It distributes over `;` ---

  lemma GlueConcat(c: char, sep: char, a: seq<string>, b: seq<string>)
    requires a != []
    ensures Glue(c, sep, a + b) == Glue(c, sep, a) + b
  {
    assert (a + b)[0] == a[0] && (a + b)[1..] == a[1..] + b;
  }

  lemma {:induction false} SplitConcat(a: string, b: string, sep: char)
    ensures Split(a + [sep] + b, sep) == Split(a, sep) + Split(b, sep)
  {
    var s := a + [sep] + b;
    if a == [] {
      assert s[0] == sep && s[1..] == b;
    } else {
      assert s[0] == a[0] && s[1..] == a[1..] + [sep] + b;
      SplitConcat(a[1..], b, sep);
      GlueConcat(a[0], sep, Split(a[1..], sep), Split(b, sep));
    }
  }

  lemma NonBlankPlus(piece: string, rest: seq<string>)
    ensures NonBlank([piece] + rest) == if Trim(piece) == [] then NonBlank(rest) else [Trim(piece)] + NonBlank(rest)
  {
    assert ([piece] + rest)[1..] == rest;
    Units(NonBlank(rest));
  }

  lemma {:induction false} NonBlankConcat(a: seq<string>, b: seq<string>)
    ensures NonBlank(a + b) == NonBlank(a) + NonBlank(b)
  {
    if a == [] {
      assert a + b == b;
      Units(NonBlank(b));
    } else {
      var first, rest := a[0], a[1..];
      assert a == [first] + rest && a + b == [first] + (rest + b);
      NonBlankConcat(rest, b);
      NonBlankPlus(first, rest);
      NonBlankPlus(first, rest + b);
      Reassociate([Trim(first)], NonBlank(rest), NonBlank(b));
    }
  }

  lemma {:induction false} ParseConcat(a: seq<string>, b: seq<string>)
    ensures ParseEntries(a + b)
            == match ParseEntries(a) case No(lack) => No(lack) case Yes(ms) => After(ms, ParseEntries(b))
  {
    if a == [] {
      assert a + b == b;
      AfterNothing(ParseEntries(b));
    } else {
      assert (a + b)[1..] == a[1..] + b;
      ParseConcat(a[1..], b);
      var first, rest := ParseEntry(a[0]), ParseEntries(a[1..]);
      if first.Yes? && rest.Yes? { AfterAfter([first.value], rest.value, ParseEntries(b)); }
    }
  }

  /** Parsing a `;` concatenation is parsing the first part, then the second. */
  lemma ParseDistributes(a: string, b: string)
    ensures Parse(a + ";" + b) == match Parse(a) case No(lack) => No(lack) case Yes(ms) => After(ms, Parse(b))
  {
    SplitConcat(a, b, ';');
    NonBlankConcat(Split(a, ';'), Split(b, ';'));
    ParseConcat(NonBlank(Split(a, ';')), NonBlank(Split(b, ';')));
  }

  // --- When it fails ---

  /** One of the first three fields is absent or blank. */
  predicate Lacks(entry: string)
  {
    var fields := Split(entry, '|');
    exists n :: 0 <= n < 3 && (n >= |fields| || Manager.Blank(fields[n]))
  }

  lemma {:induction false} TrimStartEmpty(s: string)
    ensures TrimStart(s) == [] <==> Manager.Blank(s)
  {
    if s != [] {
      TrimStartEmpty(s[1..]);
      assert s == [s[0]] + s[1..];
      assert Manager.Blank(s) <==> Manager.White(s[0]) && Manager.Blank(s[1..]) by {
        if Manager.White(s[0]) && Manager.Blank(s[1..]) {
          forall i | 0 <= i < |s| ensures Manager.White(s[i]) { if i > 0 { assert s[i] == s[1..][i - 1]; } }
        }
        if Manager.Blank(s) {
          forall i | 0 <= i < |s[1..]| ensures Manager.White(s[1..][i]) { assert s[1..][i] == s[i + 1]; }
        }
      }
    }
  }

  lemma {:induction false} TrimEndKeepsFirst(s: string)
    requires s != [] && !Manager.White(s[0])
    ensures TrimEnd(s) != [] && TrimEnd(s)[0] == s[0]
  {
    if Manager.White(s[|s| - 1]) { TrimEndKeepsFirst(s[..|s| - 1]); }
  }

  lemma {:induction false} TrimStartStops(s: string)
    ensures TrimStart(s) == [] || !Manager.White(TrimStart(s)[0])
  {
    if s != [] { TrimStartStops(s[1..]); }
  }

  lemma TrimEmpty(s: string)
    ensures Trim(s) == [] <==> Manager.Blank(s)
  {
    TrimStartEmpty(s);
    TrimStartStops(s);
    if TrimStart(s) != [] { TrimEndKeepsFirst(TrimStart(s)); }
  }

  lemma FieldEmpty(fields: seq<string>, n: nat)
    ensures FieldAt(fields, n) == [] <==> n >= |fields| || Manager.Blank(fields[n])
  {
    if n < |fields| { TrimEmpty(fields[n]); }
  }

  lemma EntryFailsIff(entry: string)
    ensures ParseEntry(entry).No? <==> Lacks(entry)
  {
    var fields := Split(entry, '|');
    FieldEmpty(fields, 0);
    FieldEmpty(fields, 1);
    FieldEmpty(fields, 2);
    if Lacks(entry) {
      var n :| 0 <= n < 3 && (n >= |fields| || Manager.Blank(fields[n]));
      assert n == 0 || n == 1 || n == 2;
    }
  }

  lemma {:induction false} EntriesFailIff(entries: seq<string>)
    ensures ParseEntries(entries).No? <==> exists e :: e in entries && Lacks(e)
  {
    if entries != [] {
      EntryFailsIff(entries[0]);
      EntriesFailIff(entries[1..]);
      assert forall e :: e in entries <==> e == entries[0] || e in entries[1..];
    }
  }

  /** `e` is the trimmed form of some piece that is not blank. */
  ghost predicate TrimmedFrom(e: string, pieces: seq<string>)
  {
    exists piece :: piece in pieces && !Manager.Blank(piece) && e == Trim(piece)
  }

  lemma {:induction false} NonBlankMembers(pieces: seq<string>)
    ensures forall e :: e in NonBlank(pieces) <==> TrimmedFrom(e, pieces)
  {
    if pieces != [] {
      NonBlankMembers(pieces[1..]);
      TrimEmpty(pieces[0]);
      assert forall piece :: piece in pieces <==> piece == pieces[0] || piece in pieces[1..];
      forall e
        ensures TrimmedFrom(e, pieces) <==> TrimmedFrom(e, pieces[1..]) || (!Manager.Blank(pieces[0]) && e == Trim(pieces[0])) { }
    }
  }

  /** A piece that is not blank, but lacks one of its first three fields. */
  predicate Faulty(piece: string) { !Manager.Blank(piece) && Lacks(Trim(piece)) }

  /** Parsing fails exactly when some entry that is not blank lacks one of its first three fields. */
  lemma ParseFailsIff(raw: string)
    ensures Parse(raw).No? <==> exists piece :: piece in Split(raw, ';') && Faulty(piece)
  {
    EntriesFailIff(NonBlank(Split(raw, ';')));
    FaultyEntries(Split(raw, ';'));
  }

  lemma FaultyEntries(pieces: seq<string>)
    ensures (exists e :: e in NonBlank(pieces) && Lacks(e)) <==> exists piece :: piece in pieces && Faulty(piece)
  {
    NonBlankMembers(pieces);
    if e :| e in NonBlank(pieces) && Lacks(e) {
      assert TrimmedFrom(e, pieces);
      var piece :| piece in pieces && !Manager.Blank(piece) && e == Trim(piece);
      assert Faulty(piece);
    }
    if piece :| piece in pieces && Faulty(piece) {
      assert TrimmedFrom(Trim(piece), pieces);
    }
  }

  // --- What it yields ---

  /** Pieces without the separator that make up the text. */
  lemma {:induction false} SplitMeaning(s: string, sep: char)
    ensures Join(Split(s, sep), sep) == s && forall piece :: piece in Split(s, sep) ==> sep !in piece
  {
    if s != [] {
      SplitMeaning(s[1..], sep);
      GlueJoins(s[0], sep, Split(s[1..], sep));
      assert s == [s[0]] + s[1..];
    }
  }

  lemma GlueJoins(c: char, sep: char, pieces: seq<string>)
    requires pieces != [] && forall piece :: piece in pieces ==> sep !in piece
    ensures Join(Glue(c, sep, pieces), sep) == [c] + Join(pieces, sep)
    ensures forall piece :: piece in Glue(c, sep, pieces) ==> sep !in piece
  {
    if c == sep {
      assert ([[]] + pieces)[1..] == pieces;
    } else {
      assert ([[c] + pieces[0]] + pieces[1..])[1..] == pieces[1..];
    }
  }

  /** The text without the white space at its ends. */
  ghost predicate Core(s: string, t: string)
  {
    exists a, b :: s == a + t + b && Manager.Blank(a) && Manager.Blank(b) && (t == [] || Tight(t))
  }

  lemma BlankConcat(a: string, b: string)
    requires Manager.Blank(a) && Manager.Blank(b)
    ensures Manager.Blank(a + b)
  {
  }

  lemma BlankUnit(c: char)
    requires Manager.White(c)
    ensures Manager.Blank([c])
  {
  }

  lemma {:induction false} TrimStartCuts(s: string) returns (a: string)
    ensures s == a + TrimStart(s) && Manager.Blank(a)
  {
    a := [];
    if s != [] && Manager.White(s[0]) {
      var rest := TrimStartCuts(s[1..]);
      BlankUnit(s[0]);
      BlankConcat([s[0]], rest);
      a := [s[0]] + rest;
      assert s == [s[0]] + s[1..];
    }
  }

  lemma {:induction false} TrimEndCuts(s: string) returns (b: string)
    ensures s == TrimEnd(s) + b && Manager.Blank(b)
  {
    b := [];
    var n := |s| - 1;
    if s != [] && Manager.White(s[n]) {
      var rest := TrimEndCuts(s[..n]);
      BlankUnit(s[n]);
      BlankConcat(rest, [s[n]]);
      b := rest + [s[n]];
      assert s == s[..n] + [s[n]];
    }
  }

  lemma {:induction false} TrimEndStops(s: string)
    ensures TrimEnd(s) == [] || !Manager.White(TrimEnd(s)[|TrimEnd(s)| - 1])
  {
    if s != [] { TrimEndStops(s[..|s| - 1]); }
  }

  lemma CoreOf(s: string, a: string, t: string, b: string, rest: string)
    requires s == a + rest && rest == t + b && Manager.Blank(a) && Manager.Blank(b)
    requires rest == [] || !Manager.White(rest[0])
    requires t == [] || !Manager.White(t[|t| - 1])
    ensures Core(s, t)
  {
    assert s == a + t + b;
    if t != [] { assert rest[0] == t[0]; }
  }

  lemma TrimIsCore(s: string)
    ensures Core(s, Trim(s))
  {
    var a := TrimStartCuts(s);
    var b := TrimEndCuts(TrimStart(s));
    TrimStartStops(s);
    TrimEndStops(TrimStart(s));
    CoreOf(s, a, Trim(s), b, TrimStart(s));
  }

  /** The text without the slashes at its end. */
  ghost predicate Unslashed(s: string, t: string)
  {
    t <= s && (forall c :: c in s[|t|..] ==> c == '/') && (t == [] || t[|t| - 1] != '/')
  }

  lemma {:induction false} TrimSlashesMeaning(s: string)
    ensures Unslashed(s, TrimSlashes(s))
  {
    var n := |s| - 1;
    if s != [] && s[n] == '/' {
      TrimSlashesMeaning(s[..n]);
      var t := TrimSlashes(s[..n]);
      assert s[|t|..] == s[..n][|t|..] + [s[n]];
    }
  }

  /** The pieces that are not blank, without the white space at their ends. */
  ghost predicate Cores(pieces: seq<string>, r: seq<string>)
  {
    if pieces == [] then r == []
    else if Manager.Blank(pieces[0]) then Cores(pieces[1..], r)
    else r != [] && Core(pieces[0], r[0]) && Cores(pieces[1..], r[1..])
  }

  lemma CoresPlus(piece: string, rest: seq<string>, r: seq<string>)
    requires Cores(rest, r)
    ensures Cores([piece] + rest, if Trim(piece) == [] then r else [Trim(piece)] + r)
  {
    TrimEmpty(piece);
    TrimIsCore(piece);
    assert ([piece] + rest)[1..] == rest && ([Trim(piece)] + r)[1..] == r;
  }

  lemma {:induction false} NonBlankIsCores(pieces: seq<string>)
    ensures Cores(pieces, NonBlank(pieces))
  {
    if pieces != [] {
      NonBlankIsCores(pieces[1..]);
      CoresPlus(pieces[0], pieces[1..], NonBlank(pieces[1..]));
      NonBlankPlus(pieces[0], pieces[1..]);
      assert pieces == [pieces[0]] + pieces[1..];
    }
  }

  /** The comma-separated collections of the fourth field, or the four default ones. */
  ghost predicate ListsCollections(fields: seq<string>, r: seq<string>)
  {
    if |fields| <= 3 then r == ["cot-broadcast", "contacts", "markers", "missions"]
    else exists text, listed :: Core(fields[3], text) && Cores(Split(text, ','), listed)
                                && r == if listed == [] then ["cot-broadcast", "contacts", "markers", "missions"] else listed
  }

  lemma CollectionsMeaning(fields: seq<string>)
    ensures ListsCollections(fields, Collections(fields))
  {
    if |fields| > 3 {
      TrimIsCore(fields[3]);
      NonBlankIsCores(Split(Trim(fields[3]), ','));
      assert Core(fields[3], Trim(fields[3])) && Cores(Split(Trim(fields[3]), ','), NonBlank(Split(Trim(fields[3]), ',')));
    }
  }

  /** The n-th field is absent or blank. */
  predicate NoField(fields: seq<string>, n: nat) { n >= |fields| || Manager.Blank(fields[n]) }

  /** An entry yields its first three fields, the third without slashes at its end, and its collections;
      it fails for the first of the three that it lacks. */
  ghost predicate Yields(entry: string, r: Parsed<Mapping>)
  {
    var fields := Split(entry, '|');
    if NoField(fields, 0) then r == No(MissingOrg(entry))
    else if NoField(fields, 1) then r == No(MissingApp(entry))
    else if NoField(fields, 2) then r == No(MissingUrl(entry))
    else r.Yes? && Core(fields[0], r.value.org) && Core(fields[1], r.value.app)
         && (exists url :: Core(fields[2], url) && Unslashed(url, r.value.baseUrl))
         && ListsCollections(fields, r.value.collections)
  }

  lemma EntryMeaning(entry: string)
    ensures Yields(entry, ParseEntry(entry))
  {
    var fields := Split(entry, '|');
    FieldEmpty(fields, 0);
    FieldEmpty(fields, 1);
    FieldEmpty(fields, 2);
    if ParseEntry(entry).Yes? {
      TrimIsCore(fields[0]);
      TrimIsCore(fields[1]);
      TrimIsCore(fields[2]);
      TrimSlashesMeaning(Trim(fields[2]));
      CollectionsMeaning(fields);
    }
  }

  // --- Round trip ---

  function Join(parts: seq<string>, sep: char): string
  {
    if parts == [] then [] else if |parts| == 1 then parts[0] else parts[0] + [sep] + Join(parts[1..], sep)
  }

  function RenderEntry(m: Mapping): string
  {
    Join([m.org, m.app, m.baseUrl, Join(m.collections, ',')], '|')
  }

  function RenderAll(ms: seq<Mapping>): seq<string>
  {
    if ms == [] then [] else [RenderEntry(ms[0])] + RenderAll(ms[1..])
  }

  function Render(ms: seq<Mapping>): string { Join(RenderAll(ms), ';') }

  /** Not empty, and without white space at the ends. */
  predicate Tight(s: string) { s != [] && !Manager.White(s[0]) && !Manager.White(s[|s| - 1]) }

  predicate Free(s: string, sep: char) { sep !in s }

  predicate PlainField(s: string) { Tight(s) && Free(s, ';') && Free(s, '|') }

  predicate WellFormed(m: Mapping)
  {
    && PlainField(m.org) && PlainField(m.app) && PlainField(m.baseUrl) && m.baseUrl[|m.baseUrl| - 1] != '/'
    && m.collections != []
    && forall i :: 0 <= i < |m.collections| ==> PlainField(m.collections[i]) && Free(m.collections[i], ',')
  }

  lemma TightIsTrimmed(s: string)
    requires Tight(s)
    ensures Trim(s) == s
  {
  }

  lemma {:induction false} SplitFree(s: string, sep: char)
    requires Free(s, sep)
    ensures Split(s, sep) == [s]
  {
    if s != [] {
      assert s == [s[0]] + s[1..];
      SplitFree(s[1..], sep);
    }
  }

  lemma {:induction false} SplitJoin(parts: seq<string>, sep: char)
    requires parts != [] && forall i :: 0 <= i < |parts| ==> Free(parts[i], sep)
    ensures Split(Join(parts, sep), sep) == parts
  {
    SplitFree(parts[0], sep);
    if |parts| > 1 {
      SplitJoin(parts[1..], sep);
      SplitConcat(parts[0], Join(parts[1..], sep), sep);
      assert parts == [parts[0]] + parts[1..];
    }
  }

  lemma {:induction false} JoinFree(parts: seq<string>, sep: char, c: char)
    requires c != sep && forall i :: 0 <= i < |parts| ==> Free(parts[i], c)
    ensures Free(Join(parts, sep), c)
  {
    if |parts| > 1 { JoinFree(parts[1..], sep, c); }
  }

  lemma {:induction false} JoinTight(parts: seq<string>, sep: char)
    requires parts != [] && forall i :: 0 <= i < |parts| ==> Tight(parts[i])
    ensures Tight(Join(parts, sep))
  {
    if |parts| > 1 {
      JoinTight(parts[1..], sep);
      var s := Join(parts, sep);
      assert s[|s| - 1] == Join(parts[1..], sep)[|Join(parts[1..], sep)| - 1];
    }
  }

  lemma {:induction false} NonBlankTight(pieces: seq<string>)
    requires forall i :: 0 <= i < |pieces| ==> Tight(pieces[i])
    ensures NonBlank(pieces) == pieces
  {
    if pieces != [] {
      TightIsTrimmed(pieces[0]);
      NonBlankTight(pieces[1..]);
      assert pieces == [pieces[0]] + pieces[1..];
    }
  }

  lemma EntryIsPlain(m: Mapping)
    requires WellFormed(m)
    ensures Tight(RenderEntry(m)) && Free(RenderEntry(m), ';')
    ensures Tight(Join(m.collections, ',')) && Free(Join(m.collections, ','), '|')
  {
    JoinTight(m.collections, ',');
    JoinFree(m.collections, ',', ';');
    JoinFree(m.collections, ',', '|');
    var fields := [m.org, m.app, m.baseUrl, Join(m.collections, ',')];
    JoinTight(fields, '|');
    JoinFree(fields, '|', ';');
  }

  lemma FieldsRoundTrip(m: Mapping)
    requires WellFormed(m)
    ensures Split(RenderEntry(m), '|') == [m.org, m.app, m.baseUrl, Join(m.collections, ',')]
  {
    EntryIsPlain(m);
    SplitJoin([m.org, m.app, m.baseUrl, Join(m.collections, ',')], '|');
  }

  lemma CollectionsRoundTrip(m: Mapping)
    requires WellFormed(m)
    ensures Collections([m.org, m.app, m.baseUrl, Join(m.collections, ',')]) == m.collections
  {
    EntryIsPlain(m);
    TightIsTrimmed(Join(m.collections, ','));
    SplitJoin(m.collections, ',');
    NonBlankTight(m.collections);
  }

  lemma EntryRoundTrip(m: Mapping)
    requires WellFormed(m)
    ensures ParseEntry(RenderEntry(m)) == Yes(m)
  {
    FieldsRoundTrip(m);
    CollectionsRoundTrip(m);
    TightIsTrimmed(m.org);
    TightIsTrimmed(m.app);
    TightIsTrimmed(m.baseUrl);
  }

  lemma {:induction false} RenderedAt(ms: seq<Mapping>)
    ensures |RenderAll(ms)| == |ms| && forall i :: 0 <= i < |ms| ==> RenderAll(ms)[i] == RenderEntry(ms[i])
  {
    if ms != [] { RenderedAt(ms[1..]); }
  }

  lemma {:induction false} EntriesRoundTrip(ms: seq<Mapping>)
    requires forall i :: 0 <= i < |ms| ==> WellFormed(ms[i])
    ensures ParseEntries(RenderAll(ms)) == Yes(ms)
  {
    if ms != [] {
      var m, rest := ms[0], ms[1..];
      EntryRoundTrip(m);
      EntriesRoundTrip(rest);
      FirstEntry(m, rest);
      assert ms == [m] + rest;
    }
  }

  lemma FirstEntry(m: Mapping, rest: seq<Mapping>)
    requires ParseEntry(RenderEntry(m)) == Yes(m) && ParseEntries(RenderAll(rest)) == Yes(rest)
    ensures ParseEntries(RenderAll([m] + rest)) == Yes([m] + rest)
  {
    assert ([m] + rest)[1..] == rest;
    assert ([RenderEntry(m)] + RenderAll(rest))[1..] == RenderAll(rest);
  }

  /** Parsing the rendering of well-formed mappings gives them back. */
  lemma RoundTrip(ms: seq<Mapping>)
    requires forall i :: 0 <= i < |ms| ==> WellFormed(ms[i])
    ensures Parse(Render(ms)) == Yes(ms)
  {
    EntriesRoundTrip(ms);
    RenderedAt(ms);
    forall i | 0 <= i < |ms| ensures Tight(RenderAll(ms)[i]) && Free(RenderAll(ms)[i], ';') { EntryIsPlain(ms[i]); }
    if ms == [] {
      assert Split([], ';') == [[]] && NonBlank([[]]) == [];
    } else {
      SplitJoin(RenderAll(ms), ';');
      NonBlankTight(RenderAll(ms));
    }
  }
}
