/**
 * The text side of the bulk import: `csvInput.split(",")`, `trim()` on each
 * piece, dropping blank pieces, and reading every remaining token as a number.
 */
module Csv {
  import opened Wrappers

  /**
   * The characters `String.prototype.trim` removes: the ECMAScript white
   * space and line terminator characters.
   */
  predicate IsWhitespace(c: char) {
    ('\U{9}' <= c <= '\U{D}') || c == ' ' || c == '\U{A0}' || c == '\U{1680}' ||
    ('\U{2000}' <= c <= '\U{200A}') || c == '\U{2028}' || c == '\U{2029}' || c == '\U{202F}' ||
    c == '\U{205F}' || c == '\U{3000}' || c == '\U{FEFF}'
  }

  predicate IsBlank(s: string) {
    forall k :: 0 <= k < |s| ==> IsWhitespace(s[k])
  }

  /** `s.split(sep)`: the pieces between separators; an empty text gives one empty piece. */
  function Split(s: string, sep: char): (parts: seq<string>)
    ensures |parts| >= 1
    ensures forall k :: 0 <= k < |parts| ==> sep !in parts[k]
  {
    if s == [] then [""]
    else
      var rest := Split(s[1..], sep);
      if s[0] == sep then [""] + rest
      else [[s[0]] + rest[0]] + rest[1..]
  }

  /** Joining pieces back with the separator between each pair. */
  function Join(parts: seq<string>, sep: char): string
    requires |parts| >= 1
  {
    if |parts| == 1 then parts[0] else parts[0] + [sep] + Join(parts[1..], sep)
  }

  /** Splitting loses nothing: joining the pieces with the separator gives the text back. */
  lemma {:induction false} JoinSplit(s: string, sep: char)
    ensures Join(Split(s, sep), sep) == s
  {
    if s != [] {
      var rest := Split(s[1..], sep);
      JoinSplit(s[1..], sep);
      if s[0] != sep {
        if |rest| == 1 {
        } else {
          assert ([[s[0]] + rest[0]] + rest[1..])[1..] == rest[1..];
        }
      }
    }
  }

  /** The first position at or after `i` that is not white space (or the end). */
  function SkipLeading(s: string, i: nat): (n: nat)
    requires i <= |s|
    ensures i <= n <= |s|
    ensures forall k :: i <= k < n ==> IsWhitespace(s[k])
    ensures n < |s| ==> !IsWhitespace(s[n])
    decreases |s| - i
  {
    if i < |s| && IsWhitespace(s[i]) then SkipLeading(s, i + 1) else i
  }

  /** The end of `s[lo..j]` once trailing white space is cut off. */
  function SkipTrailing(s: string, lo: nat, j: nat): (n: nat)
    requires lo <= j <= |s|
    ensures lo <= n <= j
    ensures forall k :: n <= k < j ==> IsWhitespace(s[k])
    ensures n > lo ==> !IsWhitespace(s[n - 1])
  {
    if j > lo && IsWhitespace(s[j - 1]) then SkipTrailing(s, lo, j - 1) else j
  }

  /**
   * `s.trim()`: `s` less its leading and trailing white space. What is cut
   * off on either side is white space, what remains starts and ends with
   * something else, and it is empty exactly when `s` is blank.
   */
  function Trim(s: string): (t: string)
    ensures t != [] ==> !IsWhitespace(t[0]) && !IsWhitespace(t[|t| - 1])
    ensures exists i, j ::
              0 <= i <= j <= |s| && t == s[i..j] &&
              (forall k :: 0 <= k < i ==> IsWhitespace(s[k])) && (forall k :: j <= k < |s| ==> IsWhitespace(s[k]))
    ensures t == [] <==> IsBlank(s)
  {
    var i := SkipLeading(s, 0);
    var j := SkipTrailing(s, i, |s|);
    assert i < j ==> s[i..j][0] == s[i] && s[i..j][j - i - 1] == s[j - 1];
    assert i == j ==> forall k :: 0 <= k < |s| ==> IsWhitespace(s[k]) by {
      if i == j {
        forall k | 0 <= k < |s| ensures IsWhitespace(s[k]) {
          if k >= i { } else { }
        }
      }
    }
    s[i..j]
  }

  /** The non-blank tokens of the import text, trimmed, in input order. */
  function Tokens(csv: string): (tokens: seq<string>)
    ensures forall k :: 0 <= k < |tokens| ==> tokens[k] != ""
  {
    NonBlank(Split(csv, ','))
  }

  /** `map(val => val.trim())` followed by `filter(val => val !== "")`. */
  function NonBlank(parts: seq<string>): (tokens: seq<string>)
    ensures |tokens| <= |parts|
    ensures forall k :: 0 <= k < |tokens| ==> tokens[k] != ""
    ensures tokens == [] <==> forall k :: 0 <= k < |parts| ==> IsBlank(parts[k])
  {
    if parts == [] then []
    else
      var t := Trim(parts[0]);
      var rest := NonBlank(parts[1..]);
      assert forall k :: 0 <= k < |parts| - 1 ==> parts[1..][k] == parts[k + 1];
      if t == "" then rest else [t] + rest
  }

  /** A single piece gives its trimmed text as a token, or nothing when it is blank. */
  lemma NonBlankSingle(p: string)
    ensures NonBlank([p]) == if IsBlank(p) then [] else [Trim(p)]
  {
    assert [p][1..] == [];
  }

  /**
   * Trimming and filtering work piece by piece: the tokens of two runs of
   * pieces are the tokens of the first followed by those of the second. With
   * `NonBlankSingle` this says every non-blank piece, trimmed, becomes a token,
   * in input order.
   */
  lemma {:induction false} NonBlankAppend(a: seq<string>, b: seq<string>)
    ensures NonBlank(a + b) == NonBlank(a) + NonBlank(b)
  {
    if a == [] {
      assert a + b == b;
    } else {
      assert (a + b)[0] == a[0];
      assert (a + b)[1..] == a[1..] + b;
      NonBlankAppend(a[1..], b);
    }
  }

  /**
   * A non-blank piece is kept, trimmed, between the tokens of the pieces
   * before it and those of the pieces after it.
   */
  lemma NonBlankKeepsPiece(parts: seq<string>, j: nat)
    requires j < |parts| && !IsBlank(parts[j])
    ensures NonBlank(parts) == NonBlank(parts[..j]) + ([Trim(parts[j])] + NonBlank(parts[j + 1..]))
  {
    NonBlankSplitAt(parts, j);
    NonBlankFromPiece(parts, j);
  }

  lemma NonBlankSplitAt(parts: seq<string>, j: nat)
    requires j <= |parts|
    ensures NonBlank(parts) == NonBlank(parts[..j]) + NonBlank(parts[j..])
  {
    assert parts == parts[..j] + parts[j..];
    NonBlankAppend(parts[..j], parts[j..]);
  }

  lemma NonBlankFromPiece(parts: seq<string>, j: nat)
    requires j < |parts| && !IsBlank(parts[j])
    ensures NonBlank(parts[j..]) == [Trim(parts[j])] + NonBlank(parts[j + 1..])
  {
    assert parts[j..] == [parts[j]] + parts[j + 1..];
    NonBlankAppend([parts[j]], parts[j + 1..]);
    NonBlankSingle(parts[j]);
  }

  /** Every token is the trimmed text of one of the pieces. */
  lemma {:induction false} TokenIsTrimmedPiece(parts: seq<string>, k: nat)
    requires k < |NonBlank(parts)|
    ensures exists j :: 0 <= j < |parts| && NonBlank(parts)[k] == Trim(parts[j])
  {
    var first := Trim(parts[0]);
    var rest := NonBlank(parts[1..]);
    var tokens := NonBlank(parts);
    assert tokens == if first == "" then rest else [first] + rest;
    if first != "" && k == 0 {
      assert tokens[0] == Trim(parts[0]);
    } else {
      var k' := if first == "" then k else k - 1;
      assert tokens[k] == rest[k'];
      TokenIsTrimmedPiece(parts[1..], k');
      var j :| 0 <= j < |parts[1..]| && rest[k'] == Trim(parts[1..][j]);
      assert parts[1..][j] == parts[j + 1];
    }
  }

  /**
   * The `map` that reads every token: the numbers in order, or the position
   * of the first token that does not read as a number (where `Number` gives
   * `NaN` and the import throws).
   */
  function ParseAll(tokens: seq<string>, parse: string -> Option<real>): (r: Result<seq<real>, nat>)
    ensures r.Ok? ==> |r.value| == |tokens| && forall k :: 0 <= k < |tokens| ==> parse(tokens[k]) == Some(r.value[k])
    ensures r.Err? ==>
              r.error < |tokens| && parse(tokens[r.error]).None? &&
              forall k :: 0 <= k < r.error ==> parse(tokens[k]).Some?
    ensures r.Ok? <==> forall k :: 0 <= k < |tokens| ==> parse(tokens[k]).Some?
  {
    if tokens == [] then Ok([])
    else match parse(tokens[0])
      case None => Err(0)
      case Some(v) =>
        match ParseAll(tokens[1..], parse)
        case Ok(vs) => Ok([v] + vs)
        case Err(k) => Err(k + 1)
  }
}
