/**
 The JavaScript runtime notions the service relies on: optional values,
 request-body values (undefined, null or a string) with their truthiness,
 string lengths as JavaScript and express-validator measure them, and the
 two string sanitizers (`trim`, `escape`) the validators and the note
 schema apply.
 */
module Base {

  /** Mongo ObjectId, abstracted to a natural number. */
  type ObjectId = nat

  datatype Option<+T> = None | Some(value: T) {
    function GetOr(default: T): T {
      match this
      case Some(v) => v
      case None => default
    }
  }

  /** A field of a parsed JSON request body. */
  datatype Value = Undefined | Null | Str(s: string) {

    /** JavaScript truthiness of a string-or-nullish value. */
    predicate Truthy() {
      Str? && s != ""
    }

    /** The string express-validator's standard validators see: "" for null and undefined. */
    function Text(): string {
      if Str? then s else ""
    }
  }

  /** The characters matched by JavaScript's `\s` (and stripped by `String.prototype.trim`). */
  predicate IsSpace(c: char) {
    || c == '\t' || c == '\n' || c == '\U{000B}' || c == '\U{000C}' || c == '\r' || c == ' '
    || c == '\U{00A0}' || c == '\U{1680}' || ('\U{2000}' <= c <= '\U{200A}')
    || c == '\U{2028}' || c == '\U{2029}' || c == '\U{202F}' || c == '\U{205F}'
    || c == '\U{3000}' || c == '\U{FEFF}'
  }

  /** Removes leading white space: the result is the suffix left after a run of spaces. */
  function TrimStart(s: string): (r: string)
    ensures |r| <= |s| && r == s[|s| - |r|..]
    ensures forall i :: 0 <= i < |s| - |r| ==> IsSpace(s[i])
    ensures r == [] || !IsSpace(r[0])
    decreases |s|
  {
    if |s| > 0 && IsSpace(s[0]) then TrimStart(s[1..]) else s
  }

  /** Removes trailing white space: the result is the prefix before a run of spaces. */
  function TrimEnd(s: string): (r: string)
    ensures |r| <= |s| && r == s[..|r|]
    ensures forall i :: |r| <= i < |s| ==> IsSpace(s[i])
    ensures r == [] || !IsSpace(r[|r| - 1])
    decreases |s|
  {
    if |s| > 0 && IsSpace(s[|s| - 1]) then TrimEnd(s[..|s| - 1]) else s
  }

  /**
   `String.prototype.trim` (also validator.js `trim` with default characters):
   the slice of the input left once the white space around it is cut off.
   */
  function Trim(s: string): (r: string)
    ensures |r| <= |s|
    ensures exists i: nat, j: nat :: i <= j <= |s| && r == s[i..j] && SpaceOutside(s, i, j)
    ensures r == [] || (!IsSpace(r[0]) && !IsSpace(r[|r| - 1]))
  {
    var t := TrimStart(s);
    var r := TrimEnd(t);
    assert r == [] || r[0] == t[0];
    SliceOfSlice(s, t, r);
    var i := |s| - |t|;
    assert SpaceOutside(s, i, i + |r|);
    r
  }

  /** Every character of `s` outside `s[i..j]` is white space. */
  predicate SpaceOutside(s: string, i: nat, j: nat)
    requires i <= j <= |s|
  {
    forall k :: 0 <= k < |s| && (k < i || j <= k) ==> IsSpace(s[k])
  }

  /**
   A prefix of a suffix of `s` is a slice of `s`; when white space alone was
   cut off at both ends, only white space lies outside that slice.
   */
  lemma SliceOfSlice(s: string, t: string, r: string)
    requires |t| <= |s| && t == s[|s| - |t|..]
    requires |r| <= |t| && r == t[..|r|]
    requires forall k :: 0 <= k < |s| - |t| ==> IsSpace(s[k])
    requires forall k :: |r| <= k < |t| ==> IsSpace(t[k])
    ensures r == s[|s| - |t|..|s| - |t| + |r|]
    ensures SpaceOutside(s, |s| - |t|, |s| - |t| + |r|)
  {
    var i := |s| - |t|;
    var j := i + |r|;
    forall k | 0 <= k < |s| && (k < i || j <= k) ensures IsSpace(s[k]) {
      if j <= k {
        assert s[k] == t[k - i];
      }
    }
  }

  /** A string with no white space at either end is its own trim. */
  lemma TrimKeepsUnpadded(s: string)
    requires s == [] || (!IsSpace(s[0]) && !IsSpace(s[|s| - 1]))
    ensures Trim(s) == s
  {
    assert TrimStart(s) == s;
    assert TrimEnd(s) == s;
  }

  /** Trimming twice is trimming once. */
  lemma TrimIdempotent(s: string)
    ensures Trim(Trim(s)) == Trim(s)
  {
    TrimKeepsUnpadded(Trim(s));
  }

  /** The characters validator.js `escape` replaces by HTML entities. */
  predicate IsHtmlSpecial(c: char) {
    c == '&' || c == '"' || c == '\'' || c == '<' || c == '>' || c == '/' || c == '\\' || c == '`'
  }

  /** One character after validator.js `escape`: the HTML entity table, every other character kept. */
  function EscapeChar(c: char): (r: string)
    ensures |r| >= 1
    ensures IsHtmlSpecial(c) ==> r[0] == '&'
    ensures !IsHtmlSpecial(c) ==> r == [c]
    ensures c == '&' ==> r == "&amp;"
    ensures c == '"' ==> r == "&quot;"
    ensures c == '\'' ==> r == "&#x27;"
    ensures c == '<' ==> r == "&lt;"
    ensures c == '>' ==> r == "&gt;"
    ensures c == '/' ==> r == "&#x2F;"
    ensures c == '\\' ==> r == "&#x5C;"
    ensures c == '`' ==> r == "&#96;"
  {
    if c == '&' then "&amp;"
    else if c == '"' then "&quot;"
    else if c == '\'' then "&#x27;"
    else if c == '<' then "&lt;"
    else if c == '>' then "&gt;"
    else if c == '/' then "&#x2F;"
    else if c == '\\' then "&#x5C;"
    else if c == '`' then "&#96;"
    else [c]
  }

  /** validator.js `escape`: each special character becomes its entity. */
  function Escape(s: string): (r: string)
    ensures |r| >= |s|
    decreases |s|
  {
    if |s| == 0 then "" else EscapeChar(s[0]) + Escape(s[1..])
  }

  /** No markup-significant character survives escaping except the entity ampersand. */
  lemma {:induction false} EscapeRemovesMarkup(s: string)
    ensures forall i :: 0 <= i < |Escape(s)| ==> Escape(s)[i] !in "\"'<>/\\`"
    decreases |s|
  {
    if |s| > 0 {
      EscapeRemovesMarkup(s[1..]);
      var head := EscapeChar(s[0]);
      assert forall i :: 0 <= i < |head| ==> head[i] !in "\"'<>/\\`";
      assert Escape(s) == head + Escape(s[1..]);
    }
  }

  /** Escaping works character by character: a concatenation escapes to the concatenation of its parts' escapes. */
  lemma {:induction false} EscapeAppend(a: string, b: string)
    ensures Escape(a + b) == Escape(a) + Escape(b)
    decreases |a|
  {
    if |a| > 0 {
      assert (a + b)[0] == a[0];
      assert (a + b)[1..] == a[1..] + b;
      EscapeAppend(a[1..], b);
    } else {
      assert a + b == b;
    }
  }

  /** A string with nothing to escape is left unchanged. */
  lemma {:induction false} EscapePlainIsIdentity(s: string)
    requires forall i :: 0 <= i < |s| ==> !IsHtmlSpecial(s[i])
    ensures Escape(s) == s
    decreases |s|
  {
    if |s| > 0 {
      EscapePlainIsIdentity(s[1..]);
      assert s == [s[0]] + s[1..];
    }
  }

  /** Escaping a non-empty string gives a non-empty string, and "" stays "". */
  lemma EscapeKeepsEmptiness(s: string)
    ensures Escape(s) == "" <==> s == ""
  {
  }

  /** Variation selectors, which validator.js `isLength` does not count. */
  predicate IsPresentationSelector(c: char) {
    c == '\U{FE0E}' || c == '\U{FE0F}'
  }

  /** JavaScript `String.prototype.length`: UTF-16 code units. */
  function Utf16Length(s: string): (n: nat)
    ensures n >= |s|
    decreases |s|
  {
    if |s| == 0 then 0
    else (if s[0] as int > 0xFFFF then 2 else 1) + Utf16Length(s[1..])
  }

  /** The length validator.js `isLength` compares with its bounds. */
  function VisibleLength(s: string): (n: nat)
    ensures n <= |s|
    decreases |s|
  {
    if |s| == 0 then 0
    else (if IsPresentationSelector(s[0]) then 0 else 1) + VisibleLength(s[1..])
  }

  /** A password long enough for `isLength` is long enough for `.length`. */
  lemma VisibleWithinUtf16(s: string)
    ensures VisibleLength(s) <= Utf16Length(s)
  {
  }

  predicate StartsWith(s: string, prefix: string) {
    |prefix| <= |s| && s[..|prefix|] == prefix
  }
}
