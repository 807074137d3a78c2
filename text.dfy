/** The parts of Go's `strings` package the core relies on, over `seq<char>`:
    `TrimSpace`, `ToLower`, `HasPrefix`, `Contains`, `Split(s, "\n")` and `len`
    (a UTF-8 byte count). */
module Text {

  /** Go's `unicode.IsSpace`: the ASCII spaces, NEL, NBSP and the other
      characters with the Unicode White_Space property. */
  predicate IsSpace(c: char) {
    || c == ' ' || c == '\t' || c == '\n' || c == '\U{000B}' || c == '\U{000C}' || c == '\r'
    || c == '\U{0085}' || c == '\U{00A0}' || c == '\U{1680}'
    || ('\U{2000}' <= c <= '\U{200A}')
    || c == '\U{2028}' || c == '\U{2029}' || c == '\U{202F}' || c == '\U{205F}' || c == '\U{3000}'
  }

  /** Every character of `s` is white space (the empty string is blank). */
  ghost predicate IsBlank(s: string) {
    forall k :: 0 <= k < |s| ==> IsSpace(s[k])
  }

  /** Drops leading white space. */
  function TrimLeft(s: string): string {
    if s != [] && IsSpace(s[0]) then TrimLeft(s[1..]) else s
  }

  /** Drops trailing white space. */
  function TrimRight(s: string): string {
    if s != [] && IsSpace(s[|s| - 1]) then TrimRight(s[..|s| - 1]) else s
  }

  /** Go's `strings.TrimSpace`. */
  function TrimSpace(s: string): string {
    TrimRight(TrimLeft(s))
  }

  /** Go's `unicode.ToLower` restricted to ASCII letters. */
  function LowerChar(c: char): (d: char)
    ensures 'A' <= c <= 'Z' ==> d as int == c as int + 32
    ensures !('A' <= c <= 'Z') ==> d == c
  {
    if 'A' <= c <= 'Z' then (c as int + 32) as char else c
  }

  /** Go's `strings.ToLower` on ASCII letters (other characters unchanged). */
  function ToLower(s: string): (r: string)
    ensures |r| == |s|
  {
    seq(|s|, i requires 0 <= i < |s| => LowerChar(s[i]))
  }

  /** Go's `strings.HasPrefix`. */
  predicate HasPrefix(s: string, prefix: string) {
    prefix <= s
  }

  /** `sub` occurs in `s` starting at index `i`. */
  ghost predicate OccursAt(s: string, sub: string, i: int) {
    0 <= i && i + |sub| <= |s| && s[i..i + |sub|] == sub
  }

  /** Go's `strings.Contains`. */
  predicate Contains(s: string, sub: string)
    decreases |s|
  {
    HasPrefix(s, sub) || (s != [] && Contains(s[1..], sub))
  }

  /** Go's `strings.Split(s, "\n")`: the pieces between newlines; the empty
      string gives one empty line. */
  function Lines(s: string): (r: seq<string>)
    ensures |r| >= 1
  {
    if s == [] then [""]
    else
      var rest := Lines(s[1..]);
      if s[0] == '\n' then [""] + rest
      else [[s[0]] + rest[0]] + rest[1..]
  }

  /** Go's `strings.Join` (left-recursive, in the order the source builds it). */
  function Join(parts: seq<string>, sep: string): string {
    if |parts| == 0 then ""
    else if |parts| == 1 then parts[0]
    else Join(parts[..|parts| - 1], sep) + sep + parts[|parts| - 1]
  }

  /** Number of bytes of the UTF-8 encoding of `c`. */
  function Utf8Width(c: char): (n: nat)
    ensures 1 <= n <= 4
  {
    if c as int < 0x80 then 1
    else if c as int < 0x800 then 2
    else if c as int < 0x1_0000 then 3
    else 4
  }

  /** Go's `len` of a string: its UTF-8 byte count. */
  function Utf8Len(s: string): nat {
    if s == [] then 0 else Utf8Len(s[..|s| - 1]) + Utf8Width(s[|s| - 1])
  }

  // ----- TrimSpace -----

  /** `TrimLeft` keeps a suffix that starts with a non-space character, and
      what it drops is white space. */
  lemma {:induction false} TrimLeftShape(s: string)
    ensures var r := TrimLeft(s);
            && |r| <= |s| && r == s[|s| - |r|..]
            && (r == [] || !IsSpace(r[0]))
            && IsBlank(s[..|s| - |r|])
  {
    if s != [] && IsSpace(s[0]) {
      var r := TrimLeft(s[1..]);
      TrimLeftShape(s[1..]);
      assert s[1..][|s| - 1 - |r|..] == s[|s| - |r|..];
      forall k | 0 <= k < |s| - |r| ensures IsSpace(s[k]) {
        if k > 0 {
          assert s[k] == s[1..][..|s| - 1 - |r|][k - 1];
        }
      }
    }
  }

  /** `TrimRight` keeps a prefix that ends with a non-space character, and
      what it drops is white space. */
  lemma {:induction false} TrimRightShape(s: string)
    ensures var r := TrimRight(s);
            && |r| <= |s| && r == s[..|r|]
            && (r == [] || !IsSpace(r[|r| - 1]))
            && IsBlank(s[|r|..])
  {
    if s != [] && IsSpace(s[|s| - 1]) {
      var init := s[..|s| - 1];
      var r := TrimRight(init);
      TrimRightShape(init);
      assert init[..|r|] == s[..|r|];
      forall k | |r| <= k < |s| ensures IsSpace(s[k]) {
        if k < |s| - 1 {
          assert s[k] == init[|r|..][k - |r|];
        }
      }
    }
  }

  lemma {:induction false} TrimLeftOfBlank(s: string)
    requires IsBlank(s)
    ensures TrimLeft(s) == ""
  {
    if s != [] {
      assert IsSpace(s[0]);
      TrimLeftOfBlank(s[1..]);
    }
  }

  /** Leading white space never survives trimming. */
  lemma {:induction false} TrimLeftSkipsBlankPrefix(a: string, s: string)
    requires IsBlank(a)
    ensures TrimLeft(a + s) == TrimLeft(s)
  {
    if a == [] {
      assert a + s == s;
    } else {
      assert IsSpace((a + s)[0]);
      assert (a + s)[1..] == a[1..] + s;
      assert IsBlank(a[1..]) by {
        forall k | 0 <= k < |a[1..]| ensures IsSpace(a[1..][k]) { assert a[1..][k] == a[k + 1]; }
      }
      TrimLeftSkipsBlankPrefix(a[1..], s);
    }
  }

  /** Once a non-space character is reached, what follows is kept. */
  lemma {:induction false} TrimLeftKeepsSuffix(s: string, b: string)
    requires !IsBlank(s)
    ensures TrimLeft(s + b) == TrimLeft(s) + b
  {
    assert s != [];
    if IsSpace(s[0]) {
      assert (s + b)[1..] == s[1..] + b;
      assert !IsBlank(s[1..]) by {
        var k :| 0 <= k < |s| && !IsSpace(s[k]);
        assert k > 0 && s[1..][k - 1] == s[k];
      }
      TrimLeftKeepsSuffix(s[1..], b);
    }
  }

  /** Trailing white space never survives trimming. */
  lemma {:induction false} TrimRightSkipsBlankSuffix(s: string, b: string)
    requires IsBlank(b)
    ensures TrimRight(s + b) == TrimRight(s)
  {
    if b == [] {
      assert s + b == s;
    } else {
      assert IsSpace((s + b)[|s + b| - 1]);
      assert (s + b)[..|s + b| - 1] == s + b[..|b| - 1];
      var init := b[..|b| - 1];
      assert IsBlank(init) by {
        forall k | 0 <= k < |init| ensures IsSpace(init[k]) { assert init[k] == b[k]; }
      }
      TrimRightSkipsBlankSuffix(s, b[..|b| - 1]);
    }
  }

  /** `TrimSpace` removes both paddings, whatever blank strings they are. */
  lemma TrimSpaceIgnoresPadding(a: string, s: string, b: string)
    requires IsBlank(a) && IsBlank(b)
    ensures TrimSpace(a + s + b) == TrimSpace(s)
  {
    assert a + s + b == a + (s + b);
    TrimLeftSkipsBlankPrefix(a, s + b);
    if IsBlank(s) {
      assert IsBlank(s + b) by {
        forall k | 0 <= k < |s + b| ensures IsSpace((s + b)[k]) {
          if k < |s| { assert (s + b)[k] == s[k]; } else { assert (s + b)[k] == b[k - |s|]; }
        }
      }
      TrimLeftOfBlank(s + b);
      TrimLeftOfBlank(s);
    } else {
      TrimLeftKeepsSuffix(s, b);
      TrimRightSkipsBlankSuffix(TrimLeft(s), b);
    }
  }

  /** `TrimSpace(s) == ""` exactly when `s` is blank. */
  lemma TrimSpaceEmptyIff(s: string)
    ensures TrimSpace(s) == "" <==> IsBlank(s)
  {
    if IsBlank(s) {
      TrimLeftOfBlank(s);
    } else {
      var l := TrimLeft(s);
      TrimLeftShape(s);
      TrimRightShape(l);
      assert s[..|s| - 0] == s;
      assert l != "";
      assert l[|l| - |l|..] == l;
    }
  }

  /** Trimming is idempotent. */
  lemma TrimSpaceIdempotent(s: string)
    ensures TrimSpace(TrimSpace(s)) == TrimSpace(s)
  {
    var t := TrimSpace(s);
    if t != [] {
      var l := TrimLeft(s);
      TrimLeftShape(s);
      TrimRightShape(l);
      TrimRightShape(t);
      assert t == l[..|t|];
      assert t[0] == l[0];
      assert TrimLeft(t) == t;
    }
  }

  // ----- ToLower -----

  lemma ToLowerAppend(a: string, b: string)
    ensures ToLower(a + b) == ToLower(a) + ToLower(b)
  {
    assert forall i :: 0 <= i < |a + b| ==> ToLower(a + b)[i] == (ToLower(a) + ToLower(b))[i];
  }

  /** Lower-casing leaves white space alone. */
  lemma ToLowerOfBlank(a: string)
    requires IsBlank(a)
    ensures ToLower(a) == a
  {
    assert forall i :: 0 <= i < |a| ==> IsSpace(a[i]) && ToLower(a)[i] == a[i];
  }

  lemma ToLowerIdempotent(s: string)
    ensures ToLower(ToLower(s)) == ToLower(s)
  {
  }

  // ----- Contains -----

  /** `Contains` holds exactly when `sub` occurs at some index of `s`. */
  lemma {:induction false} ContainsIff(s: string, sub: string)
    ensures Contains(s, sub) <==> exists i :: OccursAt(s, sub, i)
    decreases |s|
  {
    if HasPrefix(s, sub) {
      assert OccursAt(s, sub, 0);
    } else if s == [] {
      assert forall i :: !OccursAt(s, sub, i);
    } else {
      ContainsIff(s[1..], sub);
      if Contains(s[1..], sub) {
        var i :| OccursAt(s[1..], sub, i);
        assert s[i + 1..i + 1 + |sub|] == s[1..][i..i + |sub|];
        assert OccursAt(s, sub, i + 1);
      } else {
        assert !OccursAt(s, sub, 0) by {
          assert |sub| <= |s| ==> s[0..|sub|] == s[..|sub|];
        }
        forall i | 0 < i && OccursAt(s, sub, i) ensures false {
          assert s[1..][i - 1..i - 1 + |sub|] == s[i..i + |sub|];
          assert OccursAt(s[1..], sub, i - 1);
        }
      }
    }
  }

  // ----- prefixes -----

  /** A string starts with every string that starts it. */
  lemma PrefixOfConcat(a: string, b: string, c: string)
    ensures HasPrefix(a + b + c, a)
  {
    assert forall i :: 0 <= i < |a| ==> (a + b + c)[i] == a[i];
  }

  lemma PrefixTrans(a: string, b: string, c: string)
    requires HasPrefix(b, a) && HasPrefix(c, b)
    ensures HasPrefix(c, a)
  {
    assert forall i :: 0 <= i < |a| ==> c[i] == b[i];
  }

  // ----- Lines -----

  lemma {:induction false} JoinCons(x: string, xs: seq<string>, sep: string)
    ensures Join([x] + xs, sep) == if xs == [] then x else x + sep + Join(xs, sep)
    decreases |xs|
  {
    if |xs| >= 2 {
      var n := |xs|;
      assert ([x] + xs)[..n] == [x] + xs[..n - 1];
      JoinCons(x, xs[..n - 1], sep);
    } else if |xs| == 1 {
      assert ([x] + xs)[..1] == [x];
    }
  }

  /** No line produced by `Lines` holds a newline. */
  lemma {:induction false} LinesHaveNoNewline(s: string)
    ensures forall k :: 0 <= k < |Lines(s)| ==> '\n' !in Lines(s)[k]
  {
    if s != [] {
      LinesHaveNoNewline(s[1..]);
    }
  }

  lemma LinesJoinAfterNewline(s: string)
    requires s != [] && s[0] == '\n'
    requires Join(Lines(s[1..]), "\n") == s[1..]
    ensures Join(Lines(s), "\n") == s
  {
    var rest := Lines(s[1..]);
    assert Lines(s) == [""] + rest;
    JoinCons("", rest, "\n");
    assert s == "\n" + s[1..];
  }

  lemma LinesJoinAfterChar(s: string)
    requires s != [] && s[0] != '\n'
    requires Join(Lines(s[1..]), "\n") == s[1..]
    ensures Join(Lines(s), "\n") == s
  {
    var rest := Lines(s[1..]);
    var tail := rest[1..];
    var head := [s[0]] + rest[0];
    assert Lines(s) == [head] + tail;
    assert rest == [rest[0]] + tail;
    if tail == [] {
      calc {
        Join(Lines(s), "\n");
        { JoinCons(head, tail, "\n"); }
        head;
        { JoinCons(rest[0], tail, "\n"); }
        [s[0]] + Join(rest, "\n");
      }
    } else {
      var j := Join(tail, "\n");
      calc {
        Join(Lines(s), "\n");
        { JoinCons(head, tail, "\n"); }
        head + "\n" + j;
        [s[0]] + (rest[0] + "\n" + j);
        { JoinCons(rest[0], tail, "\n"); }
        [s[0]] + Join(rest, "\n");
      }
    }
    assert s == [s[0]] + s[1..];
  }

  /** Gluing the lines of `s` back with `"\n"` gives `s` again. */
  lemma {:induction false} LinesJoinBack(s: string)
    ensures Join(Lines(s), "\n") == s
  {
    if s != [] {
      LinesJoinBack(s[1..]);
      if s[0] == '\n' {
        LinesJoinAfterNewline(s);
      } else {
        LinesJoinAfterChar(s);
      }
    }
  }

  /** `Lines` is the inverse of joining with newlines: no line holds a
      newline, and gluing them back with `"\n"` gives `s` again. */
  lemma LinesSplit(s: string)
    ensures forall k :: 0 <= k < |Lines(s)| ==> '\n' !in Lines(s)[k]
    ensures Join(Lines(s), "\n") == s
  {
    LinesHaveNoNewline(s);
    LinesJoinBack(s);
  }

  /** Splitting at a newline splits the lines. */
  lemma {:induction false} LinesAtNewline(a: string, b: string)
    ensures Lines(a + "\n" + b) == Lines(a) + Lines(b)
    decreases |a|
  {
    if a == [] {
      assert a + "\n" + b == "\n" + b;
      assert ("\n" + b)[1..] == b;
    } else {
      assert (a + "\n" + b)[0] == a[0];
      assert (a + "\n" + b)[1..] == a[1..] + "\n" + b;
      LinesAtNewline(a[1..], b);
    }
  }

  /** A string without newlines is a single line. */
  lemma {:induction false} LinesWithoutNewline(s: string)
    requires '\n' !in s
    ensures Lines(s) == [s]
  {
    if s != [] {
      assert '\n' !in s[1..];
      LinesWithoutNewline(s[1..]);
      assert [s[0]] + s[1..] == s;
    }
  }

  /** The first line starts with any newline-free prefix of the string. */
  lemma {:induction false} FirstLineHasPrefix(p: string, s: string)
    requires '\n' !in p
    ensures HasPrefix(Lines(p + s)[0], p)
  {
    if p != [] {
      assert (p + s)[0] == p[0];
      assert (p + s)[1..] == p[1..] + s;
      assert '\n' !in p[1..];
      FirstLineHasPrefix(p[1..], s);
    }
  }

  // ----- UTF-8 length -----

  /** A string takes between one and four bytes per character. */
  lemma {:induction false} Utf8LenBounds(s: string)
    ensures |s| <= Utf8Len(s) <= 4 * |s|
  {
    if s != [] { Utf8LenBounds(s[..|s| - 1]); }
  }
}
