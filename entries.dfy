/** The entry grammar shared by both scopes:
      entries ::= entry ("," entry)*
      entry   ::= ident | ident "=" string-literal
    The parse cursor is an index into the token list. */
module Entries {
  import opened Syntax

  datatype Parsed<T> = Parsed(value: T, next: nat)

  /** One entry starting at `pos`. */
  function ParseEntry(toks: seq<Token>, pos: nat, build: Build): (r: Result<Parsed<Entry>>)
    requires pos <= |toks|
    ensures r.Ok? ==> pos < r.value.next <= |toks|
    ensures r.Err? ==> r.error.GrammarError? && pos <= r.error.at <= |toks|
  {
    if pos < |toks| && toks[pos].Ident? && Admits(build, toks[pos].name) then
      var key := toks[pos].name;
      if pos + 1 < |toks| && toks[pos + 1] == Eq then
        // the value must be a literal, and of the literals only a string
        if pos + 2 < |toks| && toks[pos + 2].StrLit? then
          Ok(Parsed(KeyValue(key, toks[pos + 2].text), pos + 3))
        else
          Err(GrammarError(pos + 2))
      else
        Ok(Parsed(Flag(key), pos + 1))
    else
      Err(GrammarError(pos))
  }

  /** A non-empty comma-separated list of entries starting at `pos`; a comma
      must be followed by another entry, and parsing stops at the first token
      after an entry that is not a comma. */
  function ParseEntries(toks: seq<Token>, pos: nat, build: Build): (r: Result<Parsed<seq<Entry>>>)
    requires pos <= |toks|
    decreases |toks| - pos
    ensures r.Ok? ==> |r.value.value| >= 1 && pos < r.value.next <= |toks|
    ensures r.Ok? ==> r.value.next == |toks| || toks[r.value.next] != Comma
  {
    match ParseEntry(toks, pos, build)
    case Err(e) => Err(e)
    case Ok(Parsed(entry, n)) =>
      if n < |toks| && toks[n] == Comma then
        match ParseEntries(toks, n + 1, build)
        case Err(e) => Err(e)
        case Ok(Parsed(rest, m)) => Ok(Parsed([entry] + rest, m))
      else
        Ok(Parsed([entry], n))
  }

  /** The tokens that spell one entry. */
  function EntryTokens(e: Entry): seq<Token> {
    match e
    case Flag(n) => [Ident(n)]
    case KeyValue(k, v) => [Ident(k), Eq, StrLit(v)]
  }

  function EntryName(e: Entry): string {
    match e
    case Flag(n) => n
    case KeyValue(k, _) => k
  }

  /** The canonical spelling of a non-empty entry list. */
  function Render(es: seq<Entry>): (r: seq<Token>)
    requires |es| >= 1
    ensures |r| >= 1 && r[0] == Ident(EntryName(es[0]))
  {
    if |es| == 1 then EntryTokens(es[0])
    else EntryTokens(es[0]) + [Comma] + Render(es[1..])
  }

  predicate AllAdmitted(es: seq<Entry>, build: Build) {
    forall i :: 0 <= i < |es| ==> Admits(build, EntryName(es[i]))
  }

  /** The spelling of entry `e` starts at `pos`. */
  predicate EntryAt(toks: seq<Token>, pos: nat, e: Entry) {
    match e
    case Flag(n) => pos < |toks| && toks[pos] == Ident(n)
    case KeyValue(k, v) =>
      pos + 2 < |toks| && toks[pos] == Ident(k) && toks[pos + 1] == Eq && toks[pos + 2] == StrLit(v)
  }

  function EntryLength(e: Entry): nat {
    if e.Flag? then 1 else 3
  }

  /** `toks[pos..end]` spells the non-empty entry list `es`: each entry in
      turn, a comma between two entries. */
  predicate SpelledAt(toks: seq<Token>, pos: nat, es: seq<Entry>, end: nat)
    decreases |es|
  {
    |es| >= 1 && EntryAt(toks, pos, es[0])
    && var n := pos + EntryLength(es[0]);
       if |es| == 1 then end == n
       else n < |toks| && toks[n] == Comma && SpelledAt(toks, n + 1, es[1..], end)
  }

  /** Parsing a token list that spells admitted entries up to its end gives
      those entries back and consumes every token. */
  lemma {:induction false} ParseSpelled(toks: seq<Token>, pos: nat, es: seq<Entry>, build: Build)
    requires pos <= |toks|
    requires SpelledAt(toks, pos, es, |toks|) && AllAdmitted(es, build)
    ensures ParseEntries(toks, pos, build) == Ok(Parsed(es, |toks|))
    decreases |es|
  {
    var n := pos + EntryLength(es[0]);
    assert Admits(build, EntryName(es[0]));
    assert ParseEntry(toks, pos, build) == Ok(Parsed(es[0], n));
    if |es| > 1 {
      assert AllAdmitted(es[1..], build) by {
        forall i | 0 <= i < |es[1..]| ensures Admits(build, EntryName(es[1..][i])) {
          assert es[1..][i] == es[i + 1];
        }
      }
      ParseSpelled(toks, n + 1, es[1..], build);
      assert [es[0]] + es[1..] == es;
    } else {
      assert [es[0]] == es;
    }
  }

  /** Conversely, whatever parses successfully spells the entries it yields,
      and every entry name is admitted. */
  lemma {:induction false} ParsedSpells(toks: seq<Token>, pos: nat, build: Build)
    requires pos <= |toks|
    requires ParseEntries(toks, pos, build).Ok?
    ensures var Parsed(es, n) := ParseEntries(toks, pos, build).value;
      SpelledAt(toks, pos, es, n) && AllAdmitted(es, build)
    decreases |toks| - pos
  {
    var Parsed(e, n) := ParseEntry(toks, pos, build).value;
    assert EntryAt(toks, pos, e) && n == pos + EntryLength(e) && Admits(build, EntryName(e));
    if n < |toks| && toks[n] == Comma {
      ParsedSpells(toks, n + 1, build);
      var Parsed(rest, m) := ParseEntries(toks, n + 1, build).value;
      var es := [e] + rest;
      assert es[0] == e && es[1..] == rest;
      assert ParseEntries(toks, pos, build).value == Parsed(es, m);
      assert AllAdmitted(es, build) by {
        forall i | 0 <= i < |es| ensures Admits(build, EntryName(es[i])) {
          if i > 0 {
            assert es[i] == rest[i - 1];
          }
        }
      }
    }
  }

  /** An argument list parses completely exactly when it spells a non-empty
      list of admitted entries. */
  lemma ParseWholeIff(toks: seq<Token>, es: seq<Entry>, build: Build)
    ensures ParseEntries(toks, 0, build) == Ok(Parsed(es, |toks|))
        <==> SpelledAt(toks, 0, es, |toks|) && AllAdmitted(es, build)
  {
    if ParseEntries(toks, 0, build) == Ok(Parsed(es, |toks|)) {
      ParsedSpells(toks, 0, build);
    }
    if SpelledAt(toks, 0, es, |toks|) && AllAdmitted(es, build) {
      ParseSpelled(toks, 0, es, build);
    }
  }

  /** A spelling stays a spelling when tokens are put in front of it. */
  lemma {:induction false} SpelledShift(a: seq<Token>, u: seq<Token>, pos: nat, es: seq<Entry>, end: nat)
    requires SpelledAt(u, pos, es, end)
    ensures SpelledAt(a + u, |a| + pos, es, |a| + end)
    decreases |es|
  {
    var t := a + u;
    var n := pos + EntryLength(es[0]);
    assert t[|a| + pos] == u[pos];
    if es[0].KeyValue? {
      assert t[|a| + pos + 1] == u[pos + 1] && t[|a| + pos + 2] == u[pos + 2];
    }
    if |es| > 1 {
      assert t[|a| + n] == u[n];
      SpelledShift(a, u, n + 1, es[1..], end);
    }
  }

  /** The canonical spelling spells its entries. */
  lemma {:induction false} RenderSpells(es: seq<Entry>)
    requires |es| >= 1
    ensures SpelledAt(Render(es), 0, es, |Render(es)|)
    decreases |es|
  {
    var et := EntryTokens(es[0]);
    var t := Render(es);
    if |es| == 1 {
      assert t == et;
    } else {
      var a := et + [Comma];
      var u := Render(es[1..]);
      assert t == a + u;
      RenderSpells(es[1..]);
      SpelledShift(a, u, 0, es[1..], |u|);
      assert t[|et|] == Comma;
    }
    assert t[0] == et[0];
    if es[0].KeyValue? {
      assert t[1] == et[1] && t[2] == et[2];
    }
  }

  /** Round trip: parsing the canonical spelling of admitted entries gives
      them back and consumes every token. */
  lemma RenderRoundTrip(es: seq<Entry>, build: Build)
    requires |es| >= 1 && AllAdmitted(es, build)
    ensures ParseEntries(Render(es), 0, build) == Ok(Parsed(es, |Render(es)|))
  {
    RenderSpells(es);
    ParseSpelled(Render(es), 0, es, build);
  }

  /** After an admitted `key =`, anything but a string literal, or the end of
      the input, is refused at the position the value should hold. */
  lemma NonStringValueRejected(toks: seq<Token>, pos: nat, build: Build)
    requires pos + 1 < |toks| && toks[pos].Ident? && Admits(build, toks[pos].name) && toks[pos + 1] == Eq
    requires pos + 2 == |toks| || !toks[pos + 2].StrLit?
    ensures ParseEntry(toks, pos, build) == Err(GrammarError(pos + 2))
  {
  }

  /** In a spelling, every `=` is followed by a string literal. */
  lemma {:induction false} SpelledEqHasString(toks: seq<Token>, pos: nat, es: seq<Entry>, end: nat, q: nat)
    requires SpelledAt(toks, pos, es, end)
    requires pos <= q < end <= |toks| && toks[q] == Eq
    ensures q + 1 < |toks| && toks[q + 1].StrLit?
    decreases |es|
  {
    var n := pos + EntryLength(es[0]);
    if n <= q {
      SpelledEqHasString(toks, n + 1, es[1..], end, q);
    }
  }

  /** A token list holding `=` followed by anything but a string literal
      never parses to its end, wherever the `=` stands. */
  lemma NonStringValueNeverCompletes(toks: seq<Token>, build: Build, q: nat)
    requires q < |toks| && toks[q] == Eq
    requires q + 1 == |toks| || !toks[q + 1].StrLit?
    ensures ParseEntries(toks, 0, build).Ok? ==> ParseEntries(toks, 0, build).value.next < |toks|
  {
    var r := ParseEntries(toks, 0, build);
    if r.Ok? && r.value.next == |toks| {
      ParsedSpells(toks, 0, build);
      SpelledEqHasString(toks, 0, r.value.value, |toks|, q);
    }
  }
}
