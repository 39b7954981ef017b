/**
 * Python's `string.Template` as the database-path resolution uses it: the
 * template is scanned left to right for `$` sequences, `get_identifiers()`
 * names the placeholders found, and `substitute(DB_DIR=d)` replaces those
 * placeholders and fails on any other.
 *
 * The default pattern is `$$` (an escaped dollar), `$name`, `${name}`, or a
 * lone `$` (invalid), where a name is `[_a-z][_a-z0-9]*` matched ASCII-only
 * and case-insensitively, and as long as possible.
 */
module Template {
  import opened Common

  /** The one key `replace_db_dir` substitutes. */
  const DbDirKey: string := "DB_DIR"

  datatype Token =
    | Char(c: char)              // a character copied as is
    | Escaped                    // `$$`, which substitutes to `$`
    | Placeholder(name: string, braced: bool)  // `$name`, or `${name}` when braced
    | Invalid                    // a `$` that starts none of the above

  predicate IsIdStart(c: char) {
    c == '_' || ('a' <= c <= 'z') || ('A' <= c <= 'Z')
  }

  predicate IsIdChar(c: char) {
    IsIdStart(c) || ('0' <= c <= '9')
  }

  /** A name the pattern accepts: an identifier start followed by identifier characters. */
  predicate IsIdentifier(name: string) {
    |name| > 0 && IsIdStart(name[0]) && forall i :: 0 <= i < |name| ==> IsIdChar(name[i])
  }

  /** The length of the longest prefix of `s` made of identifier characters. */
  function IdLength(s: string): (n: nat)
    ensures n <= |s|
    ensures forall i :: 0 <= i < n ==> IsIdChar(s[i])
    ensures n < |s| ==> !IsIdChar(s[n])
  {
    if s == [] || !IsIdChar(s[0]) then 0 else 1 + IdLength(s[1..])
  }

  /** `s` starts with `${name}` for a name of length `m`. */
  predicate BracedName(s: string, m: nat) {
    0 < m && 3 + m <= |s| && s[0] == '$' && s[1] == '{' && IsIdentifier(s[2..2 + m]) && s[2 + m] == '}'
  }

  /** The length of the name of a `${name}` placeholder at the start of `s`, or 0 if there is none. */
  function BracedLength(s: string): (n: nat)
    ensures n > 0 ==> 3 + n <= |s| && s[0] == '$' && s[1] == '{' && s[2 + n] == '}'
    ensures n > 0 ==> IsIdStart(s[2]) && forall i :: 2 <= i < 2 + n ==> IsIdChar(s[i])
    ensures n > 0 ==> BracedName(s, n)
    // Conversely, every `${name}` at the front of `s` is found, with its whole name.
    ensures forall m :: BracedName(s, m) ==> n == m
  {
    if |s| > 2 && s[0] == '$' && s[1] == '{' && IsIdStart(s[2]) then
      var n := IdLength(s[2..]);
      if 2 + n < |s| && s[2 + n] == '}' then n else 0
    else 0
  }

  /** The first token the template pattern finds at the front of `s`, and what is left after it. */
  function Front(s: string): (r: (Token, string))
    requires s != []
    ensures |r.1| < |s| && r.1 == s[|s| - |r.1|..]
    ensures r.0.Placeholder? ==> IsIdentifier(r.0.name)
  {
    if s[0] != '$' then (Char(s[0]), s[1..])
    else if |s| > 1 && s[1] == '$' then (Escaped, s[2..])
    else if |s| > 1 && IsIdStart(s[1]) then
      var n := IdLength(s[1..]);
      (Placeholder(s[1..1 + n], false), s[1 + n..])
    else if BracedLength(s) > 0 then
      var n := BracedLength(s);
      (Placeholder(s[2..2 + n], true), s[3 + n..])
    else (Invalid, s[1..])
  }

  /** The tokens the template pattern finds in `s`, in order; every placeholder is named by an identifier. */
  function Parse(s: string): (ts: seq<Token>)
    ensures |ts| <= |s|
    ensures forall i :: 0 <= i < |ts| && ts[i].Placeholder? ==> IsIdentifier(ts[i].name)
    decreases |s|
  {
    if s == [] then [] else [Front(s).0] + Parse(Front(s).1)
  }

  /** `name in Template(s).get_identifiers()`, on the tokens of `s`. */
  predicate Mentions(ts: seq<Token>, name: string) {
    Placeholder(name, false) in ts || Placeholder(name, true) in ts
  }

  /**
   * `substitute(DB_DIR=value)`: the first offending token, left to right,
   * raises, as a `ValueError` for a stray `$` or a `KeyError` naming one of
   * the template's placeholders other than DB_DIR.
   */
  function Substitute(ts: seq<Token>, value: string): (r: Result<string>)
    ensures r.Err? ==> r.error == InvalidPlaceholder
                       || (r.error.KeyError? && r.error.key != DbDirKey && Mentions(ts, r.error.key))
  {
    if ts == [] then Ok([])
    else
      var head: Result<string> := match ts[0]
        case Char(c) => Ok([c])
        case Escaped => Ok("$")
        case Placeholder(name, _) => if name == DbDirKey then Ok(value) else Err(KeyError(name))
        case Invalid => Err(InvalidPlaceholder);
      if head.Err? then head
      else match Substitute(ts[1..], value)
        case Ok(rest) => Ok(head.value + rest)
        case Err(e) => Err(e)
  }

  // ---------------------------------------------------------------------
  // The scan loses nothing: every character of the template is in exactly
  // one token, which can be written back.

  /** The text a token was read from. */
  function TokenText(t: Token): string {
    match t
    case Char(c) => [c]
    case Escaped => "$$"
    case Placeholder(name, braced) => if braced then "${" + name + "}" else "$" + name
    case Invalid => "$"
  }

  /** The template text the tokens were read from, left to right. */
  function Unparse(ts: seq<Token>): string {
    if ts == [] then [] else TokenText(ts[0]) + Unparse(ts[1..])
  }

  /** The first token is read from the front of the text. */
  lemma FrontText(s: string)
    requires s != []
    ensures TokenText(Front(s).0) + Front(s).1 == s
  {
    if s[0] != '$' {
      assert s == [s[0]] + s[1..];
    } else if |s| > 1 && s[1] == '$' {
      assert s == "$$" + s[2..];
    } else if |s| > 1 && IsIdStart(s[1]) {
      var n := IdLength(s[1..]);
      assert s == "$" + s[1..1 + n] + s[1 + n..];
    } else if BracedLength(s) > 0 {
      var n := BracedLength(s);
      assert s == "${" + s[2..2 + n] + "}" + s[3 + n..];
    } else {
      assert s == "$" + s[1..];
    }
  }

  lemma UnparseCons(t: Token, ts: seq<Token>)
    ensures Unparse([t] + ts) == TokenText(t) + Unparse(ts)
  {
    assert ([t] + ts)[1..] == ts;
  }

  /** Writing the tokens back gives the template: the scan covers every character, in order. */
  lemma {:induction false} ParseUnparse(s: string)
    ensures Unparse(Parse(s)) == s
    decreases |s|
  {
    if s != [] {
      var (t, rest) := Front(s);
      ParseUnparse(rest);
      UnparseCons(t, Parse(rest));
      FrontText(s);
    }
  }

  /** Every `$` of the template starts a `$` token: none is copied as a plain character. */
  lemma {:induction false} NoLiteralDollar(s: string)
    ensures Char('$') !in Parse(s)
    decreases |s|
  {
    if s != [] {
      NoLiteralDollar(Front(s).1);
    }
  }

  /** `$$` at the front of a template is one escape, whatever follows. */
  lemma EscapedFront(rest: string)
    ensures Parse("$$" + rest) == [Escaped] + Parse(rest)
  {
    var s := "$$" + rest;
    assert s[0] == '$' && s[1] == '$' && s[2..] == rest;
  }

  /** `${name}` at the front of a template is one braced placeholder with that name, whatever follows. */
  lemma BracedFront(name: string, rest: string)
    requires IsIdentifier(name)
    ensures Parse("${" + name + "}" + rest) == [Placeholder(name, true)] + Parse(rest)
  {
    var s := "${" + name + "}" + rest;
    assert s[0] == '$' && s[1] == '{' && !IsIdStart(s[1]);
    assert s[2..2 + |name|] == name && s[2 + |name|] == '}';
    assert BracedName(s, |name|);
    assert s[3 + |name|..] == rest;
  }

  /** A `$` that starts no escape, no `$name` and no `${name}` is invalid on its own, and scanning resumes after it. */
  lemma InvalidFront(s: string)
    requires |s| > 0 && s[0] == '$'
    requires |s| == 1 || (s[1] != '$' && !IsIdStart(s[1]))
    requires forall m :: !BracedName(s, m)
    ensures Parse(s) == [Invalid] + Parse(s[1..])
  {
    assert BracedLength(s) > 0 ==> BracedName(s, BracedLength(s));
  }

  // ---------------------------------------------------------------------
  // A reference description of substitution, independent of the value.

  /** A token that substitution accepts. */
  predicate Substitutable(t: Token) {
    !t.Invalid? && (t.Placeholder? ==> t.name == DbDirKey)
  }

  /** Every token is substitutable, so substitution cannot fail. */
  predicate WellFormed(ts: seq<Token>) {
    forall i :: 0 <= i < |ts| ==> Substitutable(ts[i])
  }

  /** The error of the first token substitution rejects. */
  function TemplateError(ts: seq<Token>): (e: Error)
    requires !WellFormed(ts)
    ensures e == InvalidPlaceholder || (e.KeyError? && e.key != DbDirKey && Mentions(ts, e.key))
  {
    if !Substitutable(ts[0]) then
      (if ts[0].Invalid? then InvalidPlaceholder else KeyError(ts[0].name))
    else
      assert !WellFormed(ts[1..]) by {
        var i :| 0 <= i < |ts| && !Substitutable(ts[i]);
        assert ts[1..][i - 1] == ts[i];
      }
      TemplateError(ts[1..])
  }

  /** Every placeholder replaced by `value`, every escape by `$`, every other character kept. */
  function Expand(ts: seq<Token>, value: string): string
    requires WellFormed(ts)
  {
    if ts == [] then []
    else
      assert WellFormed(ts[1..]) by {
        forall i | 0 <= i < |ts| - 1 ensures Substitutable(ts[1..][i]) {
          assert ts[1..][i] == ts[i + 1];
        }
      }
      var head := match ts[0]
        case Char(c) => [c]
        case Escaped => "$"
        case Placeholder(_, _) => value;
      head + Expand(ts[1..], value)
  }

  /** Substitution succeeds exactly on well-formed templates, where it expands them; otherwise it raises the first offending token's error, whatever the value. */
  lemma {:induction false} SubstituteCharacterised(ts: seq<Token>, value: string)
    ensures WellFormed(ts) ==> Substitute(ts, value) == Ok(Expand(ts, value))
    ensures !WellFormed(ts) ==> Substitute(ts, value) == Err(TemplateError(ts))
  {
    if ts != [] {
      SubstituteCharacterised(ts[1..], value);
      if Substitutable(ts[0]) {
        assert WellFormed(ts) <==> WellFormed(ts[1..]) by {
          if WellFormed(ts[1..]) {
            forall i | 0 <= i < |ts| ensures Substitutable(ts[i]) {
              if i > 0 { assert ts[i] == ts[1..][i - 1]; }
            }
          }
          if WellFormed(ts) {
            forall i | 0 <= i < |ts| - 1 ensures Substitutable(ts[1..][i]) {
              assert ts[1..][i] == ts[i + 1];
            }
          }
        }
      }
    }
  }

  // ---------------------------------------------------------------------
  // The templates the script ships with.

  /** A string without `$` is all literal characters. */
  lemma {:induction false} LiteralParse(s: string)
    requires '$' !in s
    ensures |Parse(s)| == |s|
    ensures forall i :: 0 <= i < |s| ==> Parse(s)[i] == Char(s[i])
  {
    if s != [] {
      LiteralParse(s[1..]);
    }
  }

  /** A string without `$` substitutes to itself and mentions no placeholder. */
  lemma LiteralTemplate(s: string, value: string)
    requires '$' !in s
    ensures WellFormed(Parse(s)) && !Mentions(Parse(s), DbDirKey)
    ensures Substitute(Parse(s), value) == Ok(s)
  {
    LiteralParse(s);
    LiteralExpand(Parse(s), s, value);
    SubstituteCharacterised(Parse(s), value);
  }

  lemma {:induction false} LiteralExpand(ts: seq<Token>, s: string, value: string)
    requires |ts| == |s| && forall i :: 0 <= i < |s| ==> ts[i] == Char(s[i])
    ensures WellFormed(ts) && Expand(ts, value) == s
  {
    if s != [] {
      LiteralExpand(ts[1..], s[1..], value);
      assert WellFormed(ts);
      assert s == [s[0]] + s[1..];
    }
  }

  /** `${DB_DIR}` at the front of a template is one placeholder, whatever follows. */
  lemma BracedDbDir(rest: string)
    ensures Parse("${DB_DIR}" + rest) == [Placeholder(DbDirKey, true)] + Parse(rest)
  {
    var s := "${DB_DIR}" + rest;
    assert s[0] == '$' && s[1] == '{' && !IsIdStart(s[1]);
    IdLengthOfPrefix("DB_DIR", "}" + rest);
    assert s[2..] == "DB_DIR" + ("}" + rest);
    assert s[2 + 6] == '}';
    assert BracedLength(s) == 6;
    assert s[2..2 + 6] == DbDirKey;
    assert s[3 + 6..] == rest;
  }

  /** `$name` at the front of a template is one placeholder when no identifier character follows the name. */
  lemma NamedPrefix(name: string, rest: string)
    requires IsIdentifier(name)
    requires rest == [] || !IsIdChar(rest[0])
    ensures Parse("$" + name + rest) == [Placeholder(name, false)] + Parse(rest)
  {
    var s := "$" + name + rest;
    assert s[1..] == name + rest;
    IdLengthOfPrefix(name, rest);
    NamedPlaceholder(s);
    assert s[1..1 + |name|] == name;
    assert s[1 + |name|..] == rest;
  }

  /** A `$` followed by an identifier start is a placeholder named by the longest identifier there. */
  lemma NamedPlaceholder(s: string)
    requires |s| > 1 && s[0] == '$' && IsIdStart(s[1])
    ensures Parse(s) == [Placeholder(s[1..1 + IdLength(s[1..])], false)] + Parse(s[1 + IdLength(s[1..])..])
  {
  }

  lemma {:induction false} IdLengthOfPrefix(id: string, rest: string)
    requires forall i :: 0 <= i < |id| ==> IsIdChar(id[i])
    requires rest == [] || !IsIdChar(rest[0])
    ensures IdLength(id + rest) == |id|
  {
    if id != [] {
      assert (id + rest)[1..] == id[1..] + rest;
      IdLengthOfPrefix(id[1..], rest);
    }
  }

  /**
   * Every database flag defaults to `${DB_DIR}` followed by a `$`-free
   * suffix: such a template mentions DB_DIR and substitutes to the
   * directory followed by the suffix.
   */
  lemma DefaultTemplate(suffix: string, value: string)
    requires '$' !in suffix
    ensures Mentions(Parse("${DB_DIR}" + suffix), DbDirKey)
    ensures WellFormed(Parse("${DB_DIR}" + suffix))
    ensures Substitute(Parse("${DB_DIR}" + suffix), value) == Ok(value + suffix)
  {
    BracedDbDir(suffix);
    LiteralTemplate(suffix, value);
    SubstituteCharacterised(Parse(suffix), value);
    PlaceholderThen(Parse(suffix), value);
  }

  /** A `DB_DIR` placeholder in front of well-formed tokens keeps them well formed and substitutes to the value first. */
  lemma PlaceholderThen(rest: seq<Token>, value: string)
    requires WellFormed(rest)
    ensures var ts := [Placeholder(DbDirKey, true)] + rest;
            Mentions(ts, DbDirKey) && WellFormed(ts) && Substitute(ts, value) == Ok(value + Expand(rest, value))
  {
    var ts := [Placeholder(DbDirKey, true)] + rest;
    assert ts[0] == Placeholder(DbDirKey, true) && ts[1..] == rest;
    assert WellFormed(ts) by {
      forall i | 0 <= i < |ts| ensures Substitutable(ts[i]) {
        if i > 0 { assert ts[i] == rest[i - 1]; }
      }
    }
    SubstituteCharacterised(rest, value);
  }
}
