/**
 * Splitting a dotted configuration key the way StringUtils.split(key, ".")
 * does: the separator characters are dropped, adjacent separators count as
 * one, and no token is ever empty.
 */
module StringUtils {

  /** The longest prefix of `s` that holds no '.'. */
  function Token(s: string): (t: string)
    ensures t <= s
    ensures '.' !in t
    ensures |t| == |s| || s[|t|] == '.'
  {
    if s == [] || s[0] == '.' then [] else [s[0]] + Token(s[1..])
  }

  /** The maximal runs of non-'.' characters of `s`, left to right. */
  function Split(s: string): (parts: seq<string>)
    ensures forall i :: 0 <= i < |parts| ==> parts[i] != [] && '.' !in parts[i]
    decreases |s|
  {
    if s == [] then []
    else if s[0] == '.' then Split(s[1..])
    else
      var t := Token(s);
      [t] + Split(s[|t|..])
  }

  /** The tokens put back together with one '.' between neighbours. */
  function Join(parts: seq<string>): string
  {
    if parts == [] then []
    else if |parts| == 1 then parts[0]
    else parts[0] + "." + Join(parts[1..])
  }

  /** A token stops at the first separator, whatever follows it. */
  lemma {:induction false} TokenStopsAtDot(a: string, c: string)
    requires c != [] && c[0] == '.'
    ensures Token(a + c) == Token(a)
    decreases |a|
  {
    if a == [] {
      assert (a + c)[0] == '.';
    } else if a[0] == '.' {
      assert (a + c)[0] == '.';
    } else {
      assert (a + c)[1..] == a[1..] + c;
      TokenStopsAtDot(a[1..], c);
    }
  }

  /** Splitting distributes over a separator: the dot itself yields no token. */
  lemma {:induction false} SplitConcat(a: string, b: string)
    ensures Split(a + "." + b) == Split(a) + Split(b)
    decreases |a|
  {
    var s := a + "." + b;
    if a == [] {
      assert s[0] == '.' && s[1..] == b;
    } else if a[0] == '.' {
      assert s[0] == '.' && s[1..] == a[1..] + "." + b;
      SplitConcat(a[1..], b);
    } else {
      assert s == a + ("." + b);
      TokenStopsAtDot(a, "." + b);
      var t := Token(a);
      assert |t| > 0;
      assert s[|t|..] == a[|t|..] + "." + b;
      SplitConcat(a[|t|..], b);
    }
  }

  /** A non-empty dot-free string is a single token. */
  lemma {:induction false} SplitDotFree(s: string)
    requires s != [] && '.' !in s
    ensures Split(s) == [s]
  {
    var t := Token(s);
    assert t == s;
    assert s[|t|..] == [];
  }

  /** Round trip: joining well-formed tokens and splitting again gives them back. */
  lemma {:induction false} SplitJoin(parts: seq<string>)
    requires forall i :: 0 <= i < |parts| ==> parts[i] != [] && '.' !in parts[i]
    ensures Split(Join(parts)) == parts
  {
    if parts == [] {
    } else if |parts| == 1 {
      SplitDotFree(parts[0]);
    } else {
      SplitConcat(parts[0], Join(parts[1..]));
      SplitDotFree(parts[0]);
      SplitJoin(parts[1..]);
      assert [parts[0]] + parts[1..] == parts;
    }
  }

  /** A key `n.f` with two well-formed segments splits into exactly [n, f]. */
  lemma TwoSegments(n: string, f: string)
    requires n != [] && '.' !in n && f != [] && '.' !in f
    ensures Split(n + "." + f) == [n, f]
  {
    SplitDotFree(n);
    SplitDotFree(f);
    SplitConcat(n, f);
  }

  /** A leading separator contributes no token. */
  lemma {:induction false} LeadingDotDropped(s: string)
    ensures Split("." + s) == Split(s)
  {
  }

  /** A trailing separator contributes no token. */
  lemma {:induction false} TrailingDotDropped(s: string)
    ensures Split(s + ".") == Split(s)
  {
    SplitConcat(s, "");
    assert s + "." + "" == s + ".";
    assert Split("") == [];
    assert Split(s) + [] == Split(s);
  }

  /** A doubled separator splits like a single one. */
  lemma {:induction false} DoubledDotDropped(a: string, b: string)
    ensures Split(a + ".." + b) == Split(a + "." + b)
  {
    SplitConcat(a, "." + b);
    LeadingDotDropped(b);
    SplitConcat(a, b);
    assert a + ".." + b == a + "." + ("." + b);
  }

  /**
   * Doubled, leading and trailing separators vanish: `n..f`, `.n.f` and
   * `n.f.` all split like `n.f`, into exactly the two segments n and f.
   */
  lemma StraySeparatorsDropped(n: string, f: string)
    requires n != [] && '.' !in n && f != [] && '.' !in f
    ensures Split(n + ".." + f) == [n, f]
    ensures Split("." + n + "." + f) == [n, f]
    ensures Split(n + "." + f + ".") == [n, f]
  {
    TwoSegments(n, f);
    DoubledDotDropped(n, f);
    LeadingDotDropped(n + "." + f);
    assert "." + n + "." + f == "." + (n + "." + f);
    TrailingDotDropped(n + "." + f);
  }
}
