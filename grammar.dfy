/**
 * The keyword grammars of the dialogue controller (bbc_demo.py): the table read from the
 * `.gmr` file and the matcher `check_grammar`.
 */
module Grammar {
  import opened Common
  import opened Text

  /**
   * The two dictionaries the controller fills from the grammar file: `grammars` maps a grammar
   * name to its single keywords, `grammars_mult` to its keyword tuples (alternatives written `a*b`).
   */
  datatype GrammarTable = GrammarTable(plain: map<string, seq<string>>, mult: map<string, seq<seq<string>>>)

  const EmptyTable := GrammarTable(map[], map[])

  /** Python's `any(w in text for w in words)`. */
  function AnyContained(words: seq<string>, text: string): (b: bool)
    ensures b <==> exists i :: 0 <= i < |words| && Contains(text, words[i])
    decreases |words|
  {
    if words == [] then false
    else Contains(text, words[0]) || AnyContained(words[1..], text)
  }

  /** Python's `all(w in text for w in words)`. */
  function AllContained(words: seq<string>, text: string): (b: bool)
    ensures b <==> forall i :: 0 <= i < |words| ==> Contains(text, words[i])
    decreases |words|
  {
    if words == [] then true
    else Contains(text, words[0]) && AllContained(words[1..], text)
  }

  /** The loop `b2 = b2 or all(...)` over the keyword tuples of one grammar. */
  function SomeTupleContained(tuples: seq<seq<string>>, text: string): (b: bool)
    ensures b <==> exists i :: 0 <= i < |tuples| && AllContained(tuples[i], text)
    decreases |tuples|
  {
    if tuples == [] then false
    else AllContained(tuples[0], text) || SomeTupleContained(tuples[1..], text)
  }

  /**
   * `check_grammar(grm, text)`: the lower-cased text contains some keyword of `grm`, or every
   * keyword of some keyword tuple of `grm`. A name the table does not know never matches.
   */
  function CheckGrammar(t: GrammarTable, grm: string, text: string): (b: bool)
    ensures b <==>
      || (grm in t.plain && exists i :: 0 <= i < |t.plain[grm]| && Contains(Lower(text), t.plain[grm][i]))
      || (grm in t.mult && exists i :: 0 <= i < |t.mult[grm]| && AllIn(t.mult[grm][i], Lower(text)))
    ensures grm !in t.plain && grm !in t.mult ==> !b
  {
    var low := Lower(text);
    var b1 := grm in t.plain && AnyContained(t.plain[grm], low);
    var b2 := grm in t.mult && SomeTupleContained(t.mult[grm], low);
    assert grm in t.mult ==> (b2 <==> exists i :: 0 <= i < |t.mult[grm]| && AllIn(t.mult[grm][i], low));
    b1 || b2
  }

  /** Every keyword of a tuple is a substring of `text`. */
  ghost predicate AllIn(tuple: seq<string>, text: string) {
    forall j :: 0 <= j < |tuple| ==> Contains(text, tuple[j])
  }

  /** Matching ignores case: a text and its lower-cased form match the same grammars. */
  lemma CheckGrammarIgnoresCase(t: GrammarTable, grm: string, text: string)
    ensures CheckGrammar(t, grm, Lower(text)) == CheckGrammar(t, grm, text)
  {
    LowerIdempotent(text);
  }

  /** One parsed line of the grammar file: `key.*(alt|alt|a*b)`. */
  datatype GrammarLine = GrammarLine(key: string, alternatives: seq<string>)

  /** Python's `b[1:-1]`. */
  function Inner(b: string): string {
    if |b| >= 2 then b[1..|b| - 1] else ""
  }

  /**
   * One line of the grammar file: stripped, split at `.*`; the key is the text before with tabs
   * removed, the alternatives are the second piece without its first and last character, split
   * at `|`. A line without `.*` has no second piece, which raises IndexError in the source: None.
   */
  function ParseLine(line: string): (r: Option<GrammarLine>)
    ensures r.None? <==> !Contains(Strip(line), ".*")
    ensures r.Some? ==> '\t' !in r.value.key
    ensures r.Some? ==> |r.value.alternatives| >= 1
    ensures r.Some? ==> forall i :: 0 <= i < |r.value.alternatives| ==> !Contains(r.value.alternatives[i], "|")
  {
    var parts := SplitStr(Strip(line), ".*");
    if |parts| < 2 then None
    else
      DeleteCharIsWithout(parts[0], '\t');
      Some(GrammarLine(ReplaceAll(parts[0], "\t", ""), SplitStr(Inner(parts[1]), "|")))
  }

  /**
   * What a parsed line holds: the key is the stripped line before its first `.*` with the tabs
   * removed, and the alternatives joined by `|` give back the piece after that `.*` (up to any
   * further `.*`) without its first and last character.
   */
  lemma ParseLineContent(line: string)
    requires ParseLine(line).Some?
    ensures var s := Strip(line);
      var i := Find(s, ".*").value;
      var g := ParseLine(line).value;
      && g.key == Without(s[..i], '\t')
      && JoinStr(g.alternatives, "|") == Inner(SplitStr(s[i + 2..], ".*")[0])
  {
    var s := Strip(line);
    var i := Find(s, ".*").value;
    var parts := SplitStr(s, ".*");
    assert parts == [s[..i]] + SplitStr(s[i + 2..], ".*");
    DeleteCharIsWithout(parts[0], '\t');
    SplitJoin(Inner(parts[1]), "|");
  }

  /** `grammars[key]` or `grammars_mult[key]`, taken as empty when the key is absent. */
  function Lookup<V>(m: map<string, seq<V>>, k: string): seq<V> {
    if k in m then m[k] else []
  }

  /** One alternative appended under `key`: to the tuples when it holds `*` (split at `*`), else to the keywords. */
  function AddAlternative(t: GrammarTable, key: string, v: string): GrammarTable {
    if '*' in v then t.(mult := t.mult[key := Lookup(t.mult, key) + [SplitStr(v, "*")]])
    else t.(plain := t.plain[key := Lookup(t.plain, key) + [v]])
  }

  /** The alternatives of one line appended in order. */
  function AddAlternatives(t: GrammarTable, key: string, vs: seq<string>): GrammarTable
    decreases |vs|
  {
    if vs == [] then t else AddAlternatives(AddAlternative(t, key, vs[0]), key, vs[1..])
  }

  /**
   * The grammar-file loop of `configure`: each line in order adds its alternatives; the first line
   * without `.*` raises, leaving what earlier lines added. The flag is false when that happened.
   */
  function LoadLines(t: GrammarTable, lines: seq<string>): (GrammarTable, bool)
    decreases |lines|
  {
    if lines == [] then (t, true)
    else
      match ParseLine(lines[0])
      case None => (t, false)
      case Some(gl) => LoadLines(AddAlternatives(t, gl.key, gl.alternatives), lines[1..])
  }

  // Reference definitions: what a grammar name collects, line by line, without building a table.

  /** The alternatives of a line that are single keywords. */
  function PlainOf(vs: seq<string>): seq<string> {
    if vs == [] then []
    else (if '*' in vs[0] then [] else [vs[0]]) + PlainOf(vs[1..])
  }

  /** The alternatives of a line that are keyword tuples, each split at `*`. */
  function MultOf(vs: seq<string>): seq<seq<string>> {
    if vs == [] then []
    else (if '*' in vs[0] then [SplitStr(vs[0], "*")] else []) + MultOf(vs[1..])
  }

  /** The keywords the lines give the name `k`, in file order, up to the first malformed line. */
  function PlainAlts(lines: seq<string>, k: string): seq<string> {
    if lines == [] then []
    else
      match ParseLine(lines[0])
      case None => []
      case Some(gl) => (if gl.key == k then PlainOf(gl.alternatives) else []) + PlainAlts(lines[1..], k)
  }

  /** The keyword tuples the lines give the name `k`, in file order, up to the first malformed line. */
  function MultAlts(lines: seq<string>, k: string): seq<seq<string>> {
    if lines == [] then []
    else
      match ParseLine(lines[0])
      case None => []
      case Some(gl) => (if gl.key == k then MultOf(gl.alternatives) else []) + MultAlts(lines[1..], k)
  }

  /** Adding one alternative appends it to the keywords or to the tuples of its key, nothing else. */
  lemma AddAlternativeAppends(t: GrammarTable, key: string, v: string, k: string)
    ensures var r := AddAlternative(t, key, v);
      && Lookup(r.plain, k) == Lookup(t.plain, k) + (if k == key then PlainOf([v]) else [])
      && Lookup(r.mult, k) == Lookup(t.mult, k) + (if k == key then MultOf([v]) else [])
      && (k in r.plain <==> k in t.plain || (k == key && PlainOf([v]) != []))
      && (k in r.mult <==> k in t.mult || (k == key && MultOf([v]) != []))
  {
    assert [v][1..] == [];
  }

  /** Keywords of a line split into its first alternative and the rest. */
  lemma {:induction false} OfCons(vs: seq<string>)
    requires vs != []
    ensures PlainOf(vs) == PlainOf([vs[0]]) + PlainOf(vs[1..])
    ensures MultOf(vs) == MultOf([vs[0]]) + MultOf(vs[1..])
  {
    var one := [vs[0]];
    assert one[1..] == [];
    assert PlainOf(one) == (if '*' in vs[0] then [] else [vs[0]]) + PlainOf([]);
    assert MultOf(one) == (if '*' in vs[0] then [SplitStr(vs[0], "*")] else []) + MultOf([]);
  }

  /** Two steps that each append under `k` append the two pieces in order. */
  lemma ChainAppend<V>(m0: map<string, seq<V>>, m1: map<string, seq<V>>, m2: map<string, seq<V>>, k: string, h: seq<V>, rest: seq<V>)
    requires Lookup(m1, k) == Lookup(m0, k) + h && (k in m1 <==> k in m0 || h != [])
    requires Lookup(m2, k) == Lookup(m1, k) + rest && (k in m2 <==> k in m1 || rest != [])
    ensures Lookup(m2, k) == Lookup(m0, k) + (h + rest) && (k in m2 <==> k in m0 || h + rest != [])
  {
    assert Lookup(m0, k) + h + rest == Lookup(m0, k) + (h + rest);
  }

  /** Adding one line's alternatives appends exactly its keywords to its own key, in order. */
  lemma {:induction false} AddAlternativesAppendsKeywords(t: GrammarTable, key: string, vs: seq<string>, k: string)
    ensures var r := AddAlternatives(t, key, vs);
      && Lookup(r.plain, k) == Lookup(t.plain, k) + (if k == key then PlainOf(vs) else [])
      && (k in r.plain <==> k in t.plain || (k == key && PlainOf(vs) != []))
    decreases |vs|
  {
    if vs != [] {
      var t1 := AddAlternative(t, key, vs[0]);
      AddAlternativeAppends(t, key, vs[0], k);
      AddAlternativesAppendsKeywords(t1, key, vs[1..], k);
      OfCons(vs);
      ChainAppend(t.plain, t1.plain, AddAlternatives(t1, key, vs[1..]).plain, k,
                  if k == key then PlainOf([vs[0]]) else [], if k == key then PlainOf(vs[1..]) else []);
    }
  }

  /** Adding one line's alternatives appends exactly its keyword tuples to its own key, in order. */
  lemma {:induction false} AddAlternativesAppendsTuples(t: GrammarTable, key: string, vs: seq<string>, k: string)
    ensures var r := AddAlternatives(t, key, vs);
      && Lookup(r.mult, k) == Lookup(t.mult, k) + (if k == key then MultOf(vs) else [])
      && (k in r.mult <==> k in t.mult || (k == key && MultOf(vs) != []))
    decreases |vs|
  {
    if vs != [] {
      var t1 := AddAlternative(t, key, vs[0]);
      AddAlternativeAppends(t, key, vs[0], k);
      AddAlternativesAppendsTuples(t1, key, vs[1..], k);
      OfCons(vs);
      ChainAppend(t.mult, t1.mult, AddAlternatives(t1, key, vs[1..]).mult, k,
                  if k == key then MultOf([vs[0]]) else [], if k == key then MultOf(vs[1..]) else []);
    }
  }

  /** What a name collects from the lines, split into the first line and the rest. */
  lemma AltsCons(lines: seq<string>, k: string, gl: GrammarLine, t: GrammarTable)
    requires lines != [] && ParseLine(lines[0]) == Some(gl)
    ensures PlainAlts(lines, k) == (if gl.key == k then PlainOf(gl.alternatives) else []) + PlainAlts(lines[1..], k)
    ensures MultAlts(lines, k) == (if gl.key == k then MultOf(gl.alternatives) else []) + MultAlts(lines[1..], k)
    ensures LoadLines(t, lines) == LoadLines(AddAlternatives(t, gl.key, gl.alternatives), lines[1..])
  {
  }

  /** Loading from a first line that is malformed adds nothing. */
  lemma AltsStop(t: GrammarTable, lines: seq<string>, k: string)
    requires lines != [] && ParseLine(lines[0]).None?
    ensures PlainAlts(lines, k) == [] && MultAlts(lines, k) == [] && LoadLines(t, lines) == (t, false)
  {
  }

  /**
   * Loading the grammar file keeps file order for the single keywords: every name ends up with the
   * keywords it had followed by those the lines give it, in the order they appear, and is present
   * exactly when it had or received any.
   */
  lemma {:induction false} LoadKeepsKeywordOrder(t: GrammarTable, lines: seq<string>, k: string)
    ensures var r := LoadLines(t, lines).0;
      && Lookup(r.plain, k) == Lookup(t.plain, k) + PlainAlts(lines, k)
      && (k in r.plain <==> k in t.plain || PlainAlts(lines, k) != [])
    decreases |lines|
  {
    if lines != [] {
      var p := ParseLine(lines[0]);
      if p.None? {
        AltsStop(t, lines, k);
      } else {
        var gl := p.value;
        var t1 := AddAlternatives(t, gl.key, gl.alternatives);
        AltsCons(lines, k, gl, t);
        AddAlternativesAppendsKeywords(t, gl.key, gl.alternatives, k);
        LoadKeepsKeywordOrder(t1, lines[1..], k);
        ChainAppend(t.plain, t1.plain, LoadLines(t1, lines[1..]).0.plain, k,
                    if gl.key == k then PlainOf(gl.alternatives) else [], PlainAlts(lines[1..], k));
      }
    }
  }

  /** The same for the keyword tuples of `grammars_mult`. */
  lemma {:induction false} LoadKeepsTupleOrder(t: GrammarTable, lines: seq<string>, k: string)
    ensures var r := LoadLines(t, lines).0;
      && Lookup(r.mult, k) == Lookup(t.mult, k) + MultAlts(lines, k)
      && (k in r.mult <==> k in t.mult || MultAlts(lines, k) != [])
    decreases |lines|
  {
    if lines != [] {
      var p := ParseLine(lines[0]);
      if p.None? {
        AltsStop(t, lines, k);
      } else {
        var gl := p.value;
        var t1 := AddAlternatives(t, gl.key, gl.alternatives);
        AltsCons(lines, k, gl, t);
        AddAlternativesAppendsTuples(t, gl.key, gl.alternatives, k);
        LoadKeepsTupleOrder(t1, lines[1..], k);
        ChainAppend(t.mult, t1.mult, LoadLines(t1, lines[1..]).0.mult, k,
                    if gl.key == k then MultOf(gl.alternatives) else [], MultAlts(lines[1..], k));
      }
    }
  }

  /** A line `configure` accepts: after stripping, it holds the `.*` that separates name and alternatives. */
  ghost predicate WellFormed(line: string) {
    Contains(Strip(line), ".*")
  }

  /** Loading succeeds exactly when every line of the file is well formed. */
  lemma {:induction false} LoadLinesOk(t: GrammarTable, lines: seq<string>)
    ensures LoadLines(t, lines).1 <==> forall i :: 0 <= i < |lines| ==> WellFormed(lines[i])
    decreases |lines|
  {
    if lines != [] {
      var p := ParseLine(lines[0]);
      assert p.Some? <==> WellFormed(lines[0]);
      if p.None? {
        AltsStop(t, lines, "");
      } else {
        AltsCons(lines, "", p.value, t);
        var rest := lines[1..];
        LoadLinesOk(AddAlternatives(t, p.value.key, p.value.alternatives), rest);
        if forall i :: 0 <= i < |rest| ==> WellFormed(rest[i]) {
          forall i | 0 <= i < |lines| ensures WellFormed(lines[i]) {
            if i > 0 { assert lines[i] == rest[i - 1]; }
          }
        } else {
          var j :| 0 <= j < |rest| && !WellFormed(rest[j]);
          assert rest[j] == lines[j + 1];
        }
      }
    }
  }

  /** From an empty table, a name's keywords are exactly those the file lists for it, in file order. */
  lemma LoadFromEmpty(lines: seq<string>, k: string)
    ensures var r := LoadLines(EmptyTable, lines).0;
      && (k in r.plain <==> PlainAlts(lines, k) != [])
      && (k in r.plain ==> r.plain[k] == PlainAlts(lines, k))
      && (k in r.mult <==> MultAlts(lines, k) != [])
      && (k in r.mult ==> r.mult[k] == MultAlts(lines, k))
  {
    LoadKeepsKeywordOrder(EmptyTable, lines, k);
    LoadKeepsTupleOrder(EmptyTable, lines, k);
  }
}
