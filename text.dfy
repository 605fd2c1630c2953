/** String operations the source uses: ASCII `toLowerCase`, `includes`, `trim`, `join`. */
module Text {

  function LowerChar(c: char): (r: char)
    ensures 'A' <= c <= 'Z' ==> r as int == c as int + 32
    ensures !('A' <= c <= 'Z') ==> r == c
  {
    if 'A' <= c <= 'Z' then (c as int + 32) as char else c
  }

  /** `s.toLowerCase()`, restricted to ASCII letters. */
  function ToLower(s: string): (r: string)
    ensures |r| == |s|
    ensures forall i :: 0 <= i < |s| ==> r[i] == LowerChar(s[i])
  {
    seq(|s|, i requires 0 <= i < |s| => LowerChar(s[i]))
  }

  predicate IsPrefix(p: string, s: string) {
    |p| <= |s| && s[..|p|] == p
  }

  /** Reference definition of `includes`: some window of `s` equals `sub`. */
  ghost predicate OccursAt(s: string, sub: string, i: int) {
    0 <= i && i + |sub| <= |s| && s[i..i + |sub|] == sub
  }

  lemma OccursShift(s: string, sub: string, i: int)
    requires s != [] && 1 <= i
    ensures OccursAt(s, sub, i) <==> OccursAt(s[1..], sub, i - 1)
  {
    if i + |sub| <= |s| {
      assert s[1..][i - 1..i - 1 + |sub|] == s[i..i + |sub|];
    }
  }

  /** `s.includes(sub)`, scanning left to right as `indexOf` does: it holds
      exactly when some window of `s` equals `sub`, so `sub` is no longer than `s`. */
  function Contains(s: string, sub: string): (r: bool)
    ensures r <==> exists i :: OccursAt(s, sub, i)
    ensures r ==> |sub| <= |s|
    decreases |s|
  {
    if IsPrefix(sub, s) then
      assert OccursAt(s, sub, 0);
      true
    else if s == [] then false
    else
      var r := Contains(s[1..], sub);
      assert r <==> exists i :: OccursAt(s, sub, i) by {
        forall i | 1 <= i ensures OccursAt(s, sub, i) <==> OccursAt(s[1..], sub, i - 1) {
          OccursShift(s, sub, i);
        }
        if r {
          var i :| OccursAt(s[1..], sub, i);
          assert OccursAt(s, sub, i + 1);
        }
      }
      r
  }

  /** Every string contains the empty string. */
  lemma ContainsEmpty(s: string)
    ensures Contains(s, "")
  {
    assert OccursAt(s, "", 0);
  }

  /** A needle found in a string is still found after text is added on either side. */
  lemma ContainsExtend(pre: string, s: string, post: string, sub: string)
    requires Contains(s, sub)
    ensures Contains(pre + s + post, sub)
  {
    var i :| OccursAt(s, sub, i);
    assert (pre + s + post)[|pre| + i..|pre| + i + |sub|] == s[i..i + |sub|];
    assert OccursAt(pre + s + post, sub, |pre| + i);
  }

  /** The characters JavaScript's `String.prototype.trim` removes
      (WhiteSpace and LineTerminator code points of ECMAScript). */
  predicate IsJsSpace(c: char) {
    var n := c as int;
    n == 0x09 || n == 0x0A || n == 0x0B || n == 0x0C || n == 0x0D || n == 0x20 ||
    n == 0xA0 || n == 0x1680 || (0x2000 <= n <= 0x200A) || n == 0x2028 || n == 0x2029 ||
    n == 0x202F || n == 0x205F || n == 0x3000 || n == 0xFEFF
  }

  predicate AllSpace(s: string) {
    forall i :: 0 <= i < |s| ==> IsJsSpace(s[i])
  }

  /** The length of the white-space run that starts `s`. */
  function LeadingSpaces(s: string): (k: nat)
    ensures k <= |s| && AllSpace(s[..k])
    ensures k < |s| ==> !IsJsSpace(s[k])
  {
    if s != [] && IsJsSpace(s[0]) then
      var k := LeadingSpaces(s[1..]);
      assert s[..k + 1] == [s[0]] + s[1..][..k];
      k + 1
    else 0
  }

  /** The length of the white-space run that ends `s`. */
  function TrailingSpaces(s: string): (k: nat)
    ensures k <= |s|
    ensures forall i :: |s| - k <= i < |s| ==> IsJsSpace(s[i])
    ensures k < |s| ==> !IsJsSpace(s[|s| - k - 1])
  {
    if s != [] && IsJsSpace(s[|s| - 1]) then
      var p := s[..|s| - 1];
      var k := TrailingSpaces(p);
      assert forall i :: |s| - (k + 1) <= i < |s| - 1 ==> s[i] == p[i];
      k + 1
    else 0
  }

  /** `s.trim()`: `s` without its leading and trailing white space. */
  function Trim(s: string): (r: string)
    ensures r == [] || (!IsJsSpace(r[0]) && !IsJsSpace(r[|r| - 1]))
    ensures exists i, j :: 0 <= i <= j <= |s| && r == s[i..j] && AllSpace(s[..i]) && AllSpace(s[j..])
  {
    var i := LeadingSpaces(s);
    var t := s[i..];
    var k := TrailingSpaces(t);
    var j := i + |t| - k;
    var r := t[..|t| - k];
    assert r == s[i..j];
    assert AllSpace(s[j..]) by {
      forall m | 0 <= m < |s| - j ensures IsJsSpace(s[j..][m]) {
        assert s[j..][m] == t[|t| - k + m];
      }
    }
    assert r != [] ==> r[0] == t[0] && r[|r| - 1] == t[|t| - k - 1];
    r
  }

  /** `s.trim()` is empty exactly when `s` is white space only. */
  lemma TrimEmptyIffBlank(s: string)
    ensures Trim(s) == [] <==> AllSpace(s)
  {
    var r := Trim(s);
    var i, j :| 0 <= i <= j <= |s| && r == s[i..j] && AllSpace(s[..i]) && AllSpace(s[j..]);
    if r == [] {
      forall k | 0 <= k < |s| ensures IsJsSpace(s[k]) {
        if k < i { assert s[k] == s[..i][k]; } else { assert s[k] == s[j..][k - j]; }
      }
    } else if AllSpace(s) {
      assert false;
    }
  }

  /** `xs.join(sep)`: every character of the result comes from one of the
      parts or from the separator, and with a one-character separator that no
      part holds, splitting the result gives the parts back. */
  function Join(xs: seq<string>, sep: string): (r: string)
    ensures forall c :: c in r ==> c in sep || exists i :: 0 <= i < |xs| && c in xs[i]
    ensures xs != [] && |sep| == 1 && (forall i :: 0 <= i < |xs| ==> sep[0] !in xs[i]) ==> Split(r, sep[0]) == xs
  {
    if xs == [] then ""
    else if |xs| == 1 then
      SplitOne(xs[0], sep);
      xs[0]
    else
      var rest := Join(xs[1..], sep);
      assert forall c :: c in rest ==> c in sep || exists i :: 0 <= i < |xs| && c in xs[i] by {
        forall c | c in rest && c !in sep ensures exists i :: 0 <= i < |xs| && c in xs[i] {
          var i :| 0 <= i < |xs[1..]| && c in xs[1..][i];
          assert xs[1..][i] == xs[i + 1];
        }
      }
      SplitStep(xs[0], sep, rest);
      assert xs == [xs[0]] + xs[1..];
      assert forall i :: 0 <= i < |xs[1..]| ==> xs[1..][i] == xs[i + 1];
      xs[0] + sep + rest
  }

  /** `s.split(c)` for a one-character separator: the pieces between the
      separators, none of which holds one, one more than there are separators. */
  function Split(s: string, c: char): (r: seq<string>)
    ensures |r| == CountChar(s, c) + 1
    ensures forall i :: 0 <= i < |r| ==> c !in r[i]
  {
    if s == [] then [""]
    else
      var rest := Split(s[1..], c);
      if s[0] == c then [""] + rest
      else
        assert forall i :: 1 <= i < |rest| ==> ([[s[0]] + rest[0]] + rest[1..])[i] == rest[i];
        [[s[0]] + rest[0]] + rest[1..]
  }

  /** A string without the separator is one piece. */
  lemma {:induction false} SplitNoSeparator(s: string, c: char)
    requires c !in s
    ensures Split(s, c) == [s]
  {
    if s != [] {
      SplitNoSeparator(s[1..], c);
      assert s == [s[0]] + s[1..];
    }
  }

  /** Splitting at one separator splits the two sides independently. */
  lemma {:induction false} SplitAround(a: string, b: string, c: char)
    ensures Split(a + [c] + b, c) == Split(a, c) + Split(b, c)
  {
    var s := a + [c] + b;
    if a == [] {
      assert s[1..] == b;
    } else {
      assert s[0] == a[0];
      assert s[1..] == a[1..] + [c] + b;
      SplitAround(a[1..], b, c);
    }
  }

  lemma SplitOne(x: string, sep: string)
    ensures |sep| == 1 && sep[0] !in x ==> Split(x, sep[0]) == [x]
  {
    if |sep| == 1 && sep[0] !in x {
      SplitNoSeparator(x, sep[0]);
    }
  }

  lemma SplitStep(x: string, sep: string, rest: string)
    ensures |sep| == 1 && sep[0] !in x ==> Split(x + sep + rest, sep[0]) == [x] + Split(rest, sep[0])
  {
    if |sep| == 1 && sep[0] !in x {
      assert sep == [sep[0]];
      SplitAround(x, rest, sep[0]);
      SplitNoSeparator(x, sep[0]);
    }
  }

  /** Joining the pieces with the separator gives the string back. */
  lemma {:induction false} JoinSplit(s: string, c: char)
    ensures Join(Split(s, c), [c]) == s
  {
    if s != [] {
      var rest := Split(s[1..], c);
      JoinSplit(s[1..], c);
      if s[0] == c {
        assert ([""] + rest)[1..] == rest;
      } else {
        var r := [[s[0]] + rest[0]] + rest[1..];
        assert r[1..] == rest[1..];
        if |rest| > 1 {
          assert rest == [rest[0]] + rest[1..];
        }
      }
      assert s == [s[0]] + s[1..];
    }
  }

  function CountChar(s: string, c: char): nat
  {
    if s == [] then 0 else (if s[0] == c then 1 else 0) + CountChar(s[1..], c)
  }

  lemma {:induction false} CountCharAppend(a: string, b: string, c: char)
    ensures CountChar(a + b, c) == CountChar(a, c) + CountChar(b, c)
  {
    if a != [] {
      assert (a + b)[1..] == a[1..] + b;
      CountCharAppend(a[1..], b, c);
    } else {
      assert a + b == b;
    }
  }

  lemma {:induction false} CountCharAbsent(s: string, c: char)
    requires c !in s
    ensures CountChar(s, c) == 0
  {
    if s != [] {
      CountCharAbsent(s[1..], c);
    }
  }

  /** Joining lines of `xs` that hold no `c` with the separator `[c]` gives
      exactly |xs| - 1 occurrences of `c`. */
  lemma {:induction false} JoinCount(xs: seq<string>, c: char)
    requires xs != []
    requires forall i :: 0 <= i < |xs| ==> c !in xs[i]
    ensures CountChar(Join(xs, [c]), c) == |xs| - 1
  {
    if |xs| == 1 {
      CountCharAbsent(xs[0], c);
    } else {
      JoinCount(xs[1..], c);
      CountCharAppend(xs[0] + [c], Join(xs[1..], [c]), c);
      CountCharAppend(xs[0], [c], c);
      CountCharAbsent(xs[0], c);
    }
  }
}
