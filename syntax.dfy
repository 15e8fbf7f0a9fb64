/** The input the `UserData` derive sees: the tokens of a `#[userdata(...)]`
    argument list, attributes, fields and the struct itself; and the errors an
    expansion can abort with. */
module Syntax {

  datatype Option<T> = None | Some(value: T)

  /** Compile-time failures. Message texts and spans are not modelled; a
      grammar error records the token position it was raised at (the length
      of the token list when the input ended too early). */
  datatype Error =
    | GrammarError(at: nat)        // an identifier, `=` value or literal was expected here
    | BadAttrForm                  // the attribute has no delimited argument group
    | UnknownOption(name: string)  // a flag or key the scope does not accept
    | BadPath(text: string)        // a `crate` value that does not parse as a path

  datatype Result<T> = Ok(value: T) | Err(error: Error)

  /** Tokens inside an attribute's argument group. */
  datatype Token =
    | Ident(name: string)   // any identifier, Rust keywords included
    | Eq                    // an `=` punct, also the first character of `==` or `=>`, whose rest is `Other`
    | Comma
    | StrLit(text: string)  // a string literal, by its value
    | OtherLit              // any other literal: integer, float, char, byte string, negative number
    | Other                 // any other token

  /** One comma-separated entry: `read` or `rename = "name"`. */
  datatype Entry = Flag(name: string) | KeyValue(key: string, value: string)

  /** The argument part of an attribute:
      `#[userdata]` (Bare), `#[userdata(...)]` with any delimiter (Group),
      or any other form such as `#[userdata = "x"]` (Malformed). */
  datatype AttrArgs = Bare | Group(toks: seq<Token>) | Malformed

  datatype Attr = Attr(path: string, args: AttrArgs)

  /** A struct field; `name` is None for a tuple-struct field. */
  datatype Field = Field(name: Option<string>, attrs: seq<Attr>)

  /** A struct: its outer attributes and its fields in declaration order. */
  datatype Struct = Struct(attrs: seq<Attr>, fields: seq<Field>)

  /** The helper attribute the derive declares. */
  const HelperName: string := "userdata"

  predicate IsHelper(a: Attr) {
    a.path == HelperName
  }

  /** The two corrections the model can apply, independently of each other.
      `keywordsAdmitted`: an entry may start with any identifier, so that the
      `crate` key the struct scope looks for can be written at all; without
      it the parser's identifier rule refuses reserved words.
      `unannotatedSkipped`: a field without a helper attribute gets no arm;
      without it the derive panics on that field. */
  datatype Build = Build(keywordsAdmitted: bool, unannotatedSkipped: bool)

  /** The code as written: neither correction. */
  const AsWritten: Build := Build(false, false)

  /** Both corrections. */
  const Intended: Build := Build(true, true)

  /** The number of reserved words the identifier parser refuses. */
  const KeywordCount: nat := 48

  /** The reserved words, by position in the parser's table: `_` and the
      keywords of the 2015 edition, strict and reserved; the 2018 edition's
      `async`, `await`, `dyn` and `try` are not among them. */
  function Keyword(i: nat): string
    requires i < KeywordCount
  {
    match i
    case 0 => "_" case 1 => "abstract" case 2 => "as" case 3 => "become" case 4 => "box"
    case 5 => "break" case 6 => "const" case 7 => "continue" case 8 => "crate" case 9 => "do"
    case 10 => "else" case 11 => "enum" case 12 => "extern" case 13 => "false" case 14 => "final"
    case 15 => "fn" case 16 => "for" case 17 => "if" case 18 => "impl" case 19 => "in"
    case 20 => "let" case 21 => "loop" case 22 => "macro" case 23 => "match" case 24 => "mod"
    case 25 => "move" case 26 => "mut" case 27 => "override" case 28 => "priv" case 29 => "pub"
    case 30 => "ref" case 31 => "return" case 32 => "Self" case 33 => "self" case 34 => "static"
    case 35 => "struct" case 36 => "super" case 37 => "trait" case 38 => "true" case 39 => "type"
    case 40 => "typeof" case 41 => "unsafe" case 42 => "unsized" case 43 => "use"
    case 44 => "virtual" case 45 => "where" case 46 => "while"
    case _ => "yield"
  }

  predicate Reserved(name: string) {
    exists i :: 0 <= i < KeywordCount && Keyword(i) == name
  }

  predicate Admits(build: Build, name: string) {
    build.keywordsAdmitted || !Reserved(name)
  }

  /** The last element of `s` that satisfies `p`. */
  function LastWhere<T>(s: seq<T>, p: T -> bool): (r: Option<T>)
    ensures r.Some? ==> r.value in s && p(r.value)
    ensures r.None? <==> forall i :: 0 <= i < |s| ==> !p(s[i])
  {
    if |s| == 0 then None
    else if p(s[|s| - 1]) then Some(s[|s| - 1])
    else LastWhere(s[..|s| - 1], p)
  }

  /** Looking from the front: an element counts only if nothing after it does. */
  lemma {:induction false} LastWhereCons<T>(x: T, s: seq<T>, p: T -> bool)
    ensures LastWhere([x] + s, p)
         == if LastWhere(s, p).Some? then LastWhere(s, p)
            else if p(x) then Some(x) else None
  {
    if |s| == 0 {
      assert [x] + s == [x];
      assert [x][..0] == [];
    } else {
      var t := [x] + s;
      assert t[|t| - 1] == s[|s| - 1];
      assert t[..|t| - 1] == [x] + s[..|s| - 1];
      if !p(s[|s| - 1]) {
        LastWhereCons(x, s[..|s| - 1], p);
      }
    }
  }
}
