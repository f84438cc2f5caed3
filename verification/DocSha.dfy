/** build_doc_sha_index and _doc_sha_for (link_engine.py), for ids with a single Unicode form. */
module DocSha {
  import opened Common

  /** A baseline entry: relative path and hash. */
  type File = (string, string)

  /** The three spellings derived from a path: flattened, flattened without extension if it has
      one, and the bare file stem. */
  datatype Spellings = Spellings(flat: string -> string, noExt: string -> Option<string>, stem: string -> string)

  function FlatOf(sp: Spellings): string -> Option<string> { rel => Some(sp.flat(rel)) }
  function StemKey(sp: Spellings): string -> Option<string> { rel => Some(sp.stem(rel)) }
  function Itself(): string -> Option<string> { rel => Some(rel) }

  datatype ShaIndex = ShaIndex(
    direct: map<string, string>,
    flattened: map<string, Option<string>>,
    flattenedNoExt: map<string, Option<string>>,
    stems: map<string, seq<string>>)

  // ------------------------------------------------------------------- meaning

  /** The hashes of all files that a spelling function sends to a key. */
  ghost function Shas(files: set<File>, f: string -> Option<string>, key: string): set<string> {
    set x | x in files && f(x.0) == Some(key) :: x.1
  }

  ghost predicate Agree(shas: set<string>, sha: string) { shas == {sha} }

  /** A table of spellings: present for every key some file has, with a hash exactly when all
      files with that spelling agree on it. */
  ghost predicate IsTable(table: map<string, Option<string>>, files: set<File>, f: string -> Option<string>) {
    forall key ::
      && (key in table <==> Shas(files, f, key) != {})
      && (forall sha :: key in table ==> (table[key] == Some(sha) <==> Agree(Shas(files, f, key), sha)))
  }

  function Enter(table: map<string, Option<string>>, key: string, sha: string): map<string, Option<string>> {
    if key in table && table[key] != Some(sha) then table[key := None]
    else if key !in table then table[key := Some(sha)]
    else table
  }

  lemma EnterKeepsTable(table: map<string, Option<string>>, files: set<File>, f: string -> Option<string>, x: File)
    requires IsTable(table, files, f)
    ensures f(x.0).None? ==> IsTable(table, files + {x}, f)
    ensures f(x.0).Some? ==> IsTable(Enter(table, f(x.0).value, x.1), files + {x}, f)
  {
    var table' := if f(x.0).Some? then Enter(table, f(x.0).value, x.1) else table;
    forall key
      ensures key in table' <==> Shas(files + {x}, f, key) != {}
      ensures forall sha :: key in table' ==> (table'[key] == Some(sha) <==> Agree(Shas(files + {x}, f, key), sha))
    {
      var before, after := Shas(files, f, key), Shas(files + {x}, f, key);
      assert after == before + if f(x.0) == Some(key) then {x.1} else {};
      if f(x.0) == Some(key) && key in table {
        TableEntry(table, files, f, key, x.1);
      }
    }
  }

  lemma TableEntry(table: map<string, Option<string>>, files: set<File>, f: string -> Option<string>, key: string,
      sha: string)
    requires IsTable(table, files, f) && key in table
    ensures table[key] == Some(sha) ==> Shas(files, f, key) + {sha} == {sha}
    ensures table[key] != Some(sha) ==> forall other :: Shas(files, f, key) + {sha} != {other}
  {
    SingletonWith(Shas(files, f, key), sha);
  }

  lemma SingletonWith(shas: set<string>, sha: string)
    requires shas != {}
    ensures forall other :: shas + {sha} == {other} ==> shas == {sha} && other == sha
  {
    forall other | shas + {sha} == {other}
      ensures shas == {sha} && other == sha
    {
      assert sha in shas + {sha};
      var s :| s in shas;
      assert s in shas + {sha};
    }
  }

  // ------------------------------------------------------------------ the index

  ghost predicate HasPath(files: set<File>, rel: string) { exists x :: x in files && x.0 == rel }

  ghost predicate IsStems(stems: map<string, seq<string>>, files: set<File>, stem: string -> string) {
    forall key, rel :: rel in StemsAt(stems, key) <==> stem(rel) == key && HasPath(files, rel)
  }

  ghost predicate IsDirect(direct: map<string, string>, files: set<File>) {
    forall rel, sha :: (rel in direct && direct[rel] == sha) <==> (rel, sha) in files
  }

  ghost predicate IsIndex(index: ShaIndex, files: set<File>, sp: Spellings) {
    && IsDirect(index.direct, files)
    && IsTable(index.flattened, files, FlatOf(sp))
    && IsTable(index.flattenedNoExt, files, sp.noExt)
    && IsStems(index.stems, files, sp.stem)
  }

  ghost predicate OnePerPath(files: seq<File>) { forall i, j :: 0 <= i < j < |files| ==> files[i].0 != files[j].0 }

  lemma NewPath(files: seq<File>, i: nat)
    requires OnePerPath(files) && i < |files|
    ensures forall y :: y in Elements(files[..i]) ==> y.0 != files[i].0
  {
    assert forall j :: 0 <= j < i ==> files[..i][j].0 != files[i].0;
  }

  lemma AddDirect(direct: map<string, string>, files: set<File>, x: File)
    requires IsDirect(direct, files) && forall y :: y in files ==> y.0 != x.0
    ensures IsDirect(direct[x.0 := x.1], files + {x})
  {
  }

  /** One file of the baseline entered under all its spellings. */
  function EnterFile(index: ShaIndex, sp: Spellings, x: File): ShaIndex {
    ShaIndex(
      index.direct[x.0 := x.1],
      Enter(index.flattened, sp.flat(x.0), x.1),
      if sp.noExt(x.0).Some? then Enter(index.flattenedNoExt, sp.noExt(x.0).value, x.1) else index.flattenedNoExt,
      PutStem(index.stems, sp.stem(x.0), x.0))
  }

  lemma EnterFileKeeps(index: ShaIndex, files: set<File>, sp: Spellings, x: File)
    requires IsIndex(index, files, sp) && forall y :: y in files ==> y.0 != x.0
    ensures IsIndex(EnterFile(index, sp, x), files + {x}, sp)
  {
    AddDirect(index.direct, files, x);
    EnterKeepsTable(index.flattened, files, FlatOf(sp), x);
    EnterKeepsTable(index.flattenedNoExt, files, sp.noExt, x);
    AddStem(index.stems, files, sp.stem, x);
  }

  method BuildIndex(files: seq<File>, sp: Spellings) returns (index: ShaIndex)
    requires OnePerPath(files)
    ensures IsIndex(index, Elements(files), sp)
  {
    index := ShaIndex(map[], map[], map[], map[]);
    for i := 0 to |files|
      invariant IsIndex(index, Elements(files[..i]), sp)
    {
      NewPath(files, i);
      EnterFileKeeps(index, Elements(files[..i]), sp, files[i]);
      assert files[..i + 1] == files[..i] + [files[i]];
      ElementsSnoc(files[..i], files[i]);
      index := EnterFile(index, sp, files[i]);
    }
    assert files[..|files|] == files;
  }

  function StemsAt(stems: map<string, seq<string>>, key: string): seq<string> {
    if key in stems then stems[key] else []
  }

  function PutStem(stems: map<string, seq<string>>, key: string, rel: string): map<string, seq<string>> {
    stems[key := StemsAt(stems, key) + [rel]]
  }

  lemma AddStem(stems: map<string, seq<string>>, files: set<File>, stem: string -> string, x: File)
    requires IsStems(stems, files, stem)
    ensures IsStems(PutStem(stems, stem(x.0), x.0), files + {x}, stem)
  {
    var stems' := PutStem(stems, stem(x.0), x.0);
    forall key, rel
      ensures rel in StemsAt(stems', key) <==> stem(rel) == key && HasPath(files + {x}, rel)
    {
      assert rel in StemsAt(stems', key) <==> rel in StemsAt(stems, key) || (rel == x.0 && key == stem(x.0));
      assert HasPath(files + {x}, rel) <==> HasPath(files, rel) || rel == x.0 by {
        assert x in files + {x};
        assert forall y :: y in files ==> y in files + {x};
      }
    }
  }

  // ---------------------------------------------------------------- resolution

  function Only(shas: set<string>): Option<string> {
    if exists s :: s in shas && shas == {s} then
      var s :| s in shas && shas == {s};
      Some(s)
    else None
  }

  function LookupStem(index: ShaIndex, docId: string): set<string> {
    set rel | rel in StemsAt(index.stems, docId) && rel in index.direct :: index.direct[rel]
  }

  /** _doc_sha_for: direct, flattened, flattened without extension, stem; an ambiguous flattened
      spelling stops the search. */
  function Resolve(index: ShaIndex, docId: string): Option<string> {
    if docId == "" then None
    else if docId in index.direct then Some(index.direct[docId])
    else if docId in index.flattened then index.flattened[docId]
    else if docId in index.flattenedNoExt && index.flattenedNoExt[docId].Some? then index.flattenedNoExt[docId]
    else Only(LookupStem(index, docId))
  }

  /** A decision on the hashes of the files with each spelling. */
  ghost function Decide(docId: string, direct: set<string>, flat: set<string>, bare: set<string>,
      stem: set<string>): Option<string> {
    if docId == "" then None
    else if direct != {} then Only(direct)
    else if flat != {} then Only(flat)
    else if Only(bare).Some? then Only(bare)
    else Only(stem)
  }

  /** The same decision on the set of files: the strongest spelling some file has decides, except
      that an ambiguous extensionless spelling yields to the stem. */
  ghost function Verdict(files: set<File>, sp: Spellings, docId: string): Option<string> {
    Decide(docId, Shas(files, Itself(), docId), Shas(files, FlatOf(sp), docId),
      Shas(files, sp.noExt, docId), Shas(files, StemKey(sp), docId))
  }

  lemma OnlyIs(shas: set<string>, sha: string)
    ensures Only(shas) == Some(sha) <==> Agree(shas, sha)
  {
    if Agree(shas, sha) {
      assert sha in shas;
    }
  }

  lemma TableResolves(table: map<string, Option<string>>, files: set<File>, f: string -> Option<string>, key: string)
    requires IsTable(table, files, f) && key in table
    ensures table[key] == Only(Shas(files, f, key))
  {
    var shas := Shas(files, f, key);
    if table[key].Some? {
      OnlyIs(shas, table[key].value);
    } else if Only(shas).Some? {
      OnlyIs(shas, Only(shas).value);
    }
  }

  lemma StemResolves(index: ShaIndex, files: set<File>, sp: Spellings, docId: string)
    requires IsIndex(index, files, sp)
    ensures LookupStem(index, docId) == Shas(files, StemKey(sp), docId)
  {
    var f := StemKey(sp);
    forall sha
      ensures sha in LookupStem(index, docId) <==> sha in Shas(files, f, docId)
    {
      if sha in LookupStem(index, docId) {
        var rel :| rel in StemsAt(index.stems, docId) && rel in index.direct && index.direct[rel] == sha;
        assert (rel, sha) in files;
      }
      if sha in Shas(files, f, docId) {
        var x :| x in files && f(x.0) == Some(docId) && x.1 == sha;
        assert (x.0, x.1) in files;
        assert HasPath(files, x.0) && x.0 in StemsAt(index.stems, docId);
        assert x.0 in index.direct && index.direct[x.0] == x.1;
      }
    }
  }

  lemma DirectResolves(index: ShaIndex, files: set<File>, sp: Spellings, docId: string)
    requires IsIndex(index, files, sp)
    ensures docId in index.direct <==> Shas(files, Itself(), docId) != {}
    ensures docId in index.direct ==> Agree(Shas(files, Itself(), docId), index.direct[docId])
  {
    var shas := Shas(files, Itself(), docId);
    if docId in index.direct {
      var x := (docId, index.direct[docId]);
      assert x in files && x.1 in shas;
    }
    forall sha | sha in shas
      ensures docId in index.direct && index.direct[docId] == sha
    {
      assert (docId, sha) in files;
    }
  }

  /** Two hashes are no agreement. */
  lemma TwoAreNone(shas: set<string>, a: string, b: string)
    requires a in shas && b in shas && a != b
    ensures Only(shas) == None
  {
  }

  lemma NoneOfNothing()
    ensures Only({}) == None
  {
  }

  lemma BareResolves(table: map<string, Option<string>>, files: set<File>, f: string -> Option<string>, key: string)
    requires IsTable(table, files, f)
    ensures (if key in table then table[key] else None) == Only(Shas(files, f, key))
  {
    if key in table {
      TableResolves(table, files, f, key);
    } else {
      assert Shas(files, f, key) == {};
      NoneOfNothing();
    }
  }

  lemma FlatResolves(table: map<string, Option<string>>, files: set<File>, f: string -> Option<string>, key: string)
    requires IsTable(table, files, f)
    ensures key in table <==> Shas(files, f, key) != {}
    ensures key in table ==> table[key] == Only(Shas(files, f, key))
  {
    if key in table {
      TableResolves(table, files, f, key);
    }
  }

  lemma TiersDecide(index: ShaIndex, docId: string, direct: set<string>, flat: set<string>, bare: set<string>,
      stem: set<string>)
    requires docId in index.direct <==> direct != {}
    requires docId in index.direct ==> Agree(direct, index.direct[docId])
    requires docId in index.flattened <==> flat != {}
    requires docId in index.flattened ==> index.flattened[docId] == Only(flat)
    requires (if docId in index.flattenedNoExt then index.flattenedNoExt[docId] else None) == Only(bare)
    requires LookupStem(index, docId) == stem
    ensures Resolve(index, docId) == Decide(docId, direct, flat, bare, stem)
  {
    if docId in index.direct {
      OnlyIs(direct, index.direct[docId]);
    }
  }

  /** The lookup decides as the set of files says, whatever order the baseline was read in. */
  lemma ResolveIsVerdict(index: ShaIndex, files: set<File>, sp: Spellings, docId: string)
    requires IsIndex(index, files, sp)
    ensures Resolve(index, docId) == Verdict(files, sp, docId)
  {
    DirectResolves(index, files, sp, docId);
    FlatResolves(index.flattened, files, FlatOf(sp), docId);
    BareResolves(index.flattenedNoExt, files, sp.noExt, docId);
    StemResolves(index, files, sp, docId);
    TiersDecide(index, docId, Shas(files, Itself(), docId), Shas(files, FlatOf(sp), docId),
      Shas(files, sp.noExt, docId), Shas(files, StemKey(sp), docId));
  }

  /** So two orders of the same baseline resolve every document alike. */
  lemma OrderIsIrrelevant(a: ShaIndex, b: ShaIndex, files: seq<File>, files': seq<File>, sp: Spellings, docId: string)
    requires IsIndex(a, Elements(files), sp) && IsIndex(b, Elements(files'), sp)
    requires multiset(files) == multiset(files')
    ensures Resolve(a, docId) == Resolve(b, docId)
  {
    assert Elements(files) == Elements(files') by {
      assert forall x :: x in files <==> x in multiset(files);
      assert forall x :: x in files' <==> x in multiset(files');
    }
    ResolveIsVerdict(a, Elements(files), sp, docId);
    ResolveIsVerdict(b, Elements(files'), sp, docId);
  }

  /** An ambiguous flattened spelling that is not itself a path resolves to nothing. */
  lemma AmbiguousFlatIsNull(index: ShaIndex, files: set<File>, sp: Spellings, docId: string, x: File, y: File)
    requires IsIndex(index, files, sp) && x in files && y in files
    requires sp.flat(x.0) == sp.flat(y.0) == docId && x.1 != y.1 && docId !in index.direct
    ensures Resolve(index, docId) == None
  {
    var shas := Shas(files, FlatOf(sp), docId);
    assert x.1 in shas && y.1 in shas;
    FlatResolves(index.flattened, files, FlatOf(sp), docId);
    TwoAreNone(shas, x.1, y.1);
  }

  /** An ambiguous extensionless spelling does not stop the search: it resolves exactly when the
      files with that stem agree. */
  lemma AmbiguousBareFallsThrough(index: ShaIndex, files: set<File>, sp: Spellings, docId: string, x: File, y: File)
    requires IsIndex(index, files, sp) && x in files && y in files && docId != ""
    requires sp.noExt(x.0) == sp.noExt(y.0) == Some(docId) && x.1 != y.1
    requires docId !in index.direct && docId !in index.flattened
    ensures Resolve(index, docId) == Only(Shas(files, StemKey(sp), docId))
  {
    var shas := Shas(files, sp.noExt, docId);
    assert x.1 in shas && y.1 in shas;
    BareResolves(index.flattenedNoExt, files, sp.noExt, docId);
    TwoAreNone(shas, x.1, y.1);
    StemResolves(index, files, sp, docId);
  }

  // -------------------------------------------------------- the actual spellings

  predicate Separator(c: char) { c == '/' || c == '\\' }

  function Flat(rel: string): string {
    if rel == "" then "" else if Separator(rel[0]) then "__" + Flat(rel[1..]) else [rel[0]] + Flat(rel[1..])
  }

  /** Position of the last occurrence, or -1. */
  function LastOf(s: string, c: char): (i: int)
    ensures -1 <= i < |s|
  {
    if s == "" then -1 else if s[|s| - 1] == c then |s| - 1 else LastOf(s[..|s| - 1], c)
  }

  /** Where the suffix of the file name starts; a leading or final dot starts none. */
  function SuffixAt(rel: string): (i: Option<nat>)
    ensures i.Some? ==> LastOf(rel, '/') + 1 < i.value < |rel|
  {
    var dot := LastOf(rel, '.');
    if LastOf(rel, '/') + 1 < dot < |rel| - 1 then Some(dot) else None
  }

  function NoExt(rel: string): Option<string> {
    if SuffixAt(rel).Some? then Some(Flat(rel[..SuffixAt(rel).value])) else None
  }

  function StemOf(rel: string): string {
    if SuffixAt(rel).Some? then rel[LastOf(rel, '/') + 1..SuffixAt(rel).value] else rel[LastOf(rel, '/') + 1..]
  }

  const PATHS := Spellings(Flat, NoExt, StemOf)

  /** The hashes of three files under a spelling, one by one. */
  lemma ShasOfThree(a: File, b: File, c: File, f: string -> Option<string>, key: string)
    ensures Shas({a, b, c}, f, key) ==
      (if f(a.0) == Some(key) then {a.1} else {}) + (if f(b.0) == Some(key) then {b.1} else {})
      + if f(c.0) == Some(key) then {c.1} else {}
  {
    forall sha
      ensures sha in Shas({a, b, c}, f, key) <==>
        || (f(a.0) == Some(key) && sha == a.1) || (f(b.0) == Some(key) && sha == b.1)
        || (f(c.0) == Some(key) && sha == c.1)
    {
      assert a in {a, b, c} && b in {a, b, c} && c in {a, b, c};
    }
  }

  lemma BareFallThrough(sp: Spellings, a: File, b: File, c: File, docId: string)
    requires docId != "" && forall x :: x in {a, b, c} ==> x.0 != docId && sp.flat(x.0) != docId
    requires sp.noExt(a.0) == sp.noExt(b.0) == Some(docId) && sp.noExt(c.0) != Some(docId) && a.1 != b.1
    requires sp.stem(a.0) != docId && sp.stem(b.0) != docId && sp.stem(c.0) == docId
    ensures Verdict({a, b, c}, sp, docId) == Some(c.1)
  {
    var files := {a, b, c};
    ShasOfThree(a, b, c, Itself(), docId);
    ShasOfThree(a, b, c, FlatOf(sp), docId);
    ShasOfThree(a, b, c, sp.noExt, docId);
    ShasOfThree(a, b, c, StemKey(sp), docId);
    TwoAreNone(Shas(files, sp.noExt, docId), a.1, b.1);
    OnlyIs({c.1}, c.1);
  }

  lemma {:induction false} LastOfIs(s: string, c: char, i: nat)
    requires i < |s| && s[i] == c && forall j :: i < j < |s| ==> s[j] != c
    ensures LastOf(s, c) == i
  {
    if i < |s| - 1 {
      LastOfIs(s[..|s| - 1], c, i);
    }
  }

  ghost predicate NoSeparator(s: string) { forall i :: 0 <= i < |s| ==> !Separator(s[i]) }
  ghost predicate NoDot(s: string) { forall i :: 0 <= i < |s| ==> s[i] != '.' }

  lemma {:induction false} FlatOfName(name: string, tail: string)
    requires NoSeparator(name)
    ensures Flat(name + tail) == name + Flat(tail)
  {
    if name == "" {
      assert name + tail == tail;
    } else {
      FlatOfName(name[1..], tail);
      Uncons(name, tail);
      Uncons(name, Flat(tail));
    }
  }

  lemma Uncons(name: string, tail: string)
    requires name != ""
    ensures (name + tail)[0] == name[0] && (name + tail)[1..] == name[1..] + tail
    ensures name + tail == [name[0]] + (name[1..] + tail)
  {
  }

  lemma FlatOfPath(dir: string, file: string)
    requires NoSeparator(dir) && NoSeparator(file)
    ensures Flat(dir + ("/" + file)) == dir + ("__" + file)
  {
    FlatOfName(dir, "/" + file);
    FlatOfName(file, "");
    assert file + "" == file && ("/" + file)[1..] == file;
  }

  /** The spellings of dir/name.ext. */
  lemma SpellingsOf(dir: string, name: string, ext: string, rel: string)
    requires NoSeparator(dir) && NoSeparator(name) && NoSeparator(ext)
    requires name != "" && ext != "" && NoDot(name) && NoDot(ext) && rel == dir + ("/" + (name + ("." + ext)))
    ensures Flat(rel) == dir + ("__" + (name + ("." + ext))) && NoExt(rel) == Some(dir + ("__" + name))
      && StemOf(rel) == name
  {
    var slash, dot := |dir|, |dir| + 1 + |name|;
    assert rel[slash] == '/' && rel[dot] == '.';
    LastOfIs(rel, '/', slash);
    LastOfIs(rel, '.', dot);
    assert rel[..dot] == dir + ("/" + name) && rel[slash + 1..dot] == name;
    FlatOfPath(dir, name);
    FlatOfPath(dir, name + ("." + ext));
  }

  /** A path with an extension of at least two characters is longer than its bare spelling. */
  lemma BareIsShorter(dir: string, name: string, ext: string, rel: string)
    requires NoSeparator(dir) && NoSeparator(name) && NoSeparator(ext)
    requires name != "" && |ext| >= 2 && NoDot(name) && NoDot(ext) && rel == dir + ("/" + (name + ("." + ext)))
    ensures NoExt(rel) == Some(dir + ("__" + name)) && StemOf(rel) == name && |name| < |dir + ("__" + name)|
    ensures |rel| > |dir + ("__" + name)| && |Flat(rel)| > |dir + ("__" + name)|
  {
    SpellingsOf(dir, name, ext, rel);
  }

  lemma JoinedIsPlain(dir: string, name: string)
    requires NoSeparator(dir) && NoSeparator(name) && NoDot(dir) && NoDot(name)
    ensures NoSeparator(dir + ("__" + name)) && NoDot(dir + ("__" + name))
  {
  }

  ghost predicate Extension(ext: string) { |ext| >= 2 && NoSeparator(ext) && NoDot(ext) }

  /** dir/name.md and dir/name.pdf, say, make the id dir__name ambiguous without its extension, yet
      it resolves to the hash of an unrelated file whose stem is spelled that way. */
  lemma BareAmbiguity(dir: string, name: string, other: string, e: string, e': string, e'': string,
                      a: File, b: File, c: File, docId: string, index: ShaIndex)
    requires NoSeparator(dir) && NoSeparator(name) && NoDot(dir) && NoDot(name) && name != "" && NoSeparator(other)
    requires Extension(e) && Extension(e') && Extension(e'') && e != e' && docId == dir + ("__" + name)
    requires a.0 == dir + ("/" + (name + ("." + e))) && b.0 == dir + ("/" + (name + ("." + e'))) && a.1 != b.1
    requires c.0 == other + ("/" + (docId + ("." + e''))) && IsIndex(index, {a, b, c}, PATHS)
    ensures NoExt(a.0) == NoExt(b.0) == Some(docId) && NoExt(c.0) != Some(docId)
    ensures Resolve(index, docId) == Some(c.1)
  {
    BareIsShorter(dir, name, e, a.0);
    BareIsShorter(dir, name, e', b.0);
    JoinedIsPlain(dir, name);
    BareIsShorter(other, docId, e'', c.0);
    Clashing(a, b, c, docId, |NoExt(c.0).value|);
    ResolveIsVerdict(index, {a, b, c}, PATHS, docId);
  }

  lemma Clashing(a: File, b: File, c: File, docId: string, bare: nat)
    requires docId != "" && a.1 != b.1 && |a.0| > |docId| && |b.0| > |docId| && |c.0| > bare > |docId|
    requires |Flat(a.0)| > |docId| && |Flat(b.0)| > |docId| && |Flat(c.0)| > bare
    requires NoExt(a.0) == NoExt(b.0) == Some(docId) && NoExt(c.0).Some? && |NoExt(c.0).value| == bare
    requires |StemOf(a.0)| < |docId| && |StemOf(b.0)| < |docId| && StemOf(c.0) == docId
    ensures Verdict({a, b, c}, PATHS, docId) == Some(c.1)
  {
    BareFallThrough(PATHS, a, b, c, docId);
  }
}
