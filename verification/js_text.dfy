/** JavaScript strings as the handlers see them: sequences of UTF-16 code
    units. `length`, `trim()` and the per-character regular expression
    replacements of the upload middleware all work on code units, so a
    character outside the Basic Multilingual Plane counts as two. */
module JsText {

  newtype CodeUnit = c: int | 0 <= c < 0x1_0000

  type JsString = seq<CodeUnit>

  /** The code unit of a character of a Dafny literal; every literal used in
      this model is ASCII, so the replacement character is never produced. */
  function Unit(c: char): CodeUnit {
    if c as int < 0x1_0000 then c as int as CodeUnit else 0xFFFD
  }

  /** A Dafny string literal as a JavaScript string. */
  function Lit(s: string): JsString {
    seq(|s|, i requires 0 <= i < |s| => Unit(s[i]))
  }

  /** Converting a literal distributes over concatenation. */
  lemma LitConcat(a: string, b: string)
    ensures Lit(a + b) == Lit(a) + Lit(b)
  {
    assert forall i :: 0 <= i < |a| + |b| ==> Lit(a + b)[i] == (Lit(a) + Lit(b))[i];
  }

  /** ECMAScript WhiteSpace and LineTerminator code points: what `trim()`
      removes and what `parseInt` skips. */
  predicate IsSpace(c: CodeUnit) {
    || c == 0x09 || c == 0x0A || c == 0x0B || c == 0x0C || c == 0x0D
    || c == 0x20 || c == 0xA0 || c == 0x1680
    || (0x2000 <= c <= 0x200A)
    || c == 0x2028 || c == 0x2029 || c == 0x202F || c == 0x205F
    || c == 0x3000 || c == 0xFEFF
  }

  predicate AllSpace(s: JsString) {
    forall i :: 0 <= i < |s| ==> IsSpace(s[i])
  }

  /** The length of the longest whitespace prefix. */
  function LeadingSpace(s: JsString): (k: nat)
    ensures k <= |s|
    ensures forall i :: 0 <= i < k ==> IsSpace(s[i])
    ensures k < |s| ==> !IsSpace(s[k])
    decreases |s|
  {
    if |s| > 0 && IsSpace(s[0]) then 1 + LeadingSpace(s[1..]) else 0
  }

  /** The length of the longest whitespace suffix. */
  function TrailingSpace(s: JsString): (k: nat)
    ensures k <= |s|
    ensures forall i :: |s| - k <= i < |s| ==> IsSpace(s[i])
    ensures k < |s| ==> !IsSpace(s[|s| - k - 1])
    decreases |s|
  {
    if |s| > 0 && IsSpace(s[|s| - 1]) then 1 + TrailingSpace(s[..|s| - 1]) else 0
  }

  /** The string without its leading whitespace (what `parseInt` reads). */
  function TrimStart(s: JsString): JsString {
    s[LeadingSpace(s)..]
  }

  /** Where the trimmed part of `s` ends: before the trailing whitespace, or
      at the end of a blank string. */
  function TrimEndIndex(s: JsString): (b: nat)
    ensures LeadingSpace(s) <= b <= |s|
  {
    if LeadingSpace(s) == |s| then |s| else |s| - TrailingSpace(s)
  }

  /** `String.prototype.trim`: the string without its leading and trailing
      whitespace. It is empty exactly when the input is blank. */
  function Trim(s: JsString): (r: JsString)
    ensures |r| <= |s|
    ensures |r| == 0 <==> AllSpace(s)
    ensures |r| > 0 ==> !IsSpace(r[0]) && !IsSpace(r[|r| - 1])
  {
    s[LeadingSpace(s)..TrimEndIndex(s)]
  }

  /** The trimmed string is what lies between a blank prefix and a blank
      suffix of the input. */
  lemma TrimIsInfix(s: JsString)
    ensures var a := LeadingSpace(s);
            var r := Trim(s);
            && a + |r| <= |s|
            && r == s[a..a + |r|]
            && AllSpace(s[..a])
            && AllSpace(s[a + |r|..])
  {
  }

  /** Any split of `s` into a blank prefix, a part that starts and ends with
      non-whitespace (or is empty), and a blank suffix is the one `trim()`
      makes. */
  lemma TrimOfSplit(s: JsString, a: nat, b: nat)
    requires a <= b <= |s|
    requires AllSpace(s[..a]) && AllSpace(s[b..])
    requires a < b ==> !IsSpace(s[a]) && !IsSpace(s[b - 1])
    ensures Trim(s) == s[a..b]
  {
    if a == b {
      assert AllSpace(s) by {
        forall i | 0 <= i < |s| ensures IsSpace(s[i]) {
          if i < a { assert s[..a][i] == s[i]; } else { assert s[b..][i - b] == s[i]; }
        }
      }
    } else {
      var l := LeadingSpace(s);
      assert forall i :: 0 <= i < a ==> s[..a][i] == s[i];
      assert l == a;
      var t := TrailingSpace(s);
      assert forall i :: b <= i < |s| ==> s[b..][i - b] == s[i];
      assert t == |s| - b;
    }
  }

  lemma AllSpaceConcat(u: JsString, v: JsString)
    requires AllSpace(u) && AllSpace(v)
    ensures AllSpace(u + v)
  {
    forall i | 0 <= i < |u + v| ensures IsSpace((u + v)[i]) {
      if i >= |u| {
        assert (u + v)[i] == v[i - |u|];
      }
    }
  }

  /** Whitespace added around a string does not change what `trim()`
      gives. */
  lemma {:induction false} TrimAbsorbsPadding(w1: JsString, s: JsString, w2: JsString)
    requires AllSpace(w1) && AllSpace(w2)
    ensures Trim(w1 + s + w2) == Trim(s)
  {
    var r := Trim(s);
    TrimIsInfix(s);
    var a := LeadingSpace(s);
    var b := a + |r|;
    var x := w1 + s + w2;
    var a', b' := |w1| + a, |w1| + b;
    assert x[..a'] == w1 + s[..a];
    AllSpaceConcat(w1, s[..a]);
    assert x[b'..] == s[b..] + w2;
    AllSpaceConcat(s[b..], w2);
    assert x[a'..b'] == r;
    TrimOfSplit(x, a', b');
  }

  /** Trimming an already trimmed string changes nothing. */
  lemma {:induction false} TrimIdempotent(s: JsString)
    ensures Trim(Trim(s)) == Trim(s)
  {
    var t := Trim(s);
    TrimOfSplit(t, 0, |t|);
  }

  /** Whitespace in front of a string is all `TrimStart` removes. */
  lemma {:induction false} TrimStartSkipsSpace(w: JsString, x: JsString)
    requires AllSpace(w)
    ensures TrimStart(w + x) == TrimStart(x)
  {
    var k := LeadingSpace(x);
    var l := LeadingSpace(w + x);
    assert forall i :: 0 <= i < |x| ==> (w + x)[|w| + i] == x[i];
    assert l == |w| + k;
    assert (w + x)[l..] == x[k..];
  }

  /** ASCII case folding of one code unit: A-Z become a-z. */
  function AsciiLower(c: CodeUnit): CodeUnit {
    if 0x41 <= c <= 0x5A then c + 0x20 else c
  }

  function Fold(s: JsString): JsString {
    seq(|s|, i requires 0 <= i < |s| => AsciiLower(s[i]))
  }

  /** Equality of two strings when upper- and lower-case ASCII letters are
      not distinguished. */
  predicate SameIgnoringCase(a: JsString, b: JsString) {
    Fold(a) == Fold(b)
  }

  /** Case-insensitive equality is code-unit-wise: same length, and each pair
      of code units folds to the same letter. */
  lemma SameIgnoringCaseIsPointwise(a: JsString, b: JsString)
    ensures SameIgnoringCase(a, b) <==>
            |a| == |b| && forall i :: 0 <= i < |a| ==> AsciiLower(a[i]) == AsciiLower(b[i])
  {
    if |a| == |b| && forall i :: 0 <= i < |a| ==> AsciiLower(a[i]) == AsciiLower(b[i]) {
      assert forall i :: 0 <= i < |a| ==> Fold(a)[i] == Fold(b)[i];
    }
    if SameIgnoringCase(a, b) {
      assert |Fold(a)| == |Fold(b)|;
      forall i | 0 <= i < |a| ensures AsciiLower(a[i]) == AsciiLower(b[i]) {
        assert Fold(a)[i] == Fold(b)[i];
      }
    }
  }

  /** `Array.prototype.join`: the parts with the separator between
      consecutive ones. */
  function Join(parts: seq<JsString>, sep: JsString): (r: JsString)
    ensures |parts| == 0 ==> r == []
    ensures |parts| == 1 ==> r == parts[0]
    decreases |parts|
  {
    if |parts| == 0 then []
    else if |parts| == 1 then parts[0]
    else parts[0] + sep + Join(parts[1..], sep)
  }

  /** One step of `Join` on two or more parts. */
  lemma JoinStep(parts: seq<JsString>, sep: JsString)
    requires |parts| >= 2
    ensures Join(parts, sep) == parts[0] + sep + Join(parts[1..], sep)
  {
  }

  /** Joining two non-empty lists of parts is joining each and putting one
      separator between them; with `Join([p], sep) == p` this fixes every
      part, in order, with exactly one separator between neighbours. */
  lemma {:induction false} JoinOfConcat(a: seq<JsString>, b: seq<JsString>, sep: JsString)
    requires |a| >= 1 && |b| >= 1
    ensures Join(a + b, sep) == Join(a, sep) + sep + Join(b, sep)
    decreases |a|
  {
    var ab := a + b;
    JoinStep(ab, sep);
    assert ab[0] == a[0];
    if |a| == 1 {
      assert ab[1..] == b;
    } else {
      assert ab[1..] == a[1..] + b;
      JoinOfConcat(a[1..], b, sep);
      JoinStep(a, sep);
      var ja, jb := Join(a[1..], sep), Join(b, sep);
      assert a[0] + sep + (ja + sep + jb) == (a[0] + sep + ja) + sep + jb;
    }
  }

  /** The joined text starts with the first part followed by the separator,
      and ends with the last part. */
  lemma {:induction false} JoinEnds(parts: seq<JsString>, sep: JsString)
    ensures var r := Join(parts, sep);
            && (|parts| >= 1 ==> |parts[0]| <= |r| && r[..|parts[0]|] == parts[0])
            && (|parts| >= 2 ==> |parts[0]| + |sep| <= |r| && r[|parts[0]|..|parts[0]| + |sep|] == sep)
            && (|parts| >= 1 ==> |parts[|parts| - 1]| <= |r| && r[|r| - |parts[|parts| - 1]|..] == parts[|parts| - 1])
  {
    var n := |parts|;
    if n >= 2 {
      JoinStep(parts, sep);
      var last := parts[n - 1];
      assert parts == parts[..n - 1] + [last];
      JoinOfConcat(parts[..n - 1], [last], sep);
      assert Join([last], sep) == last;
    }
  }
}
