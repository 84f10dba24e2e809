/**
 * ANSI "select graphic rendition" escape sequences, as the logger uses them
 * to colour its status tags and time stamps, and the text a terminal shows
 * once every such sequence is removed.
 */
module Ansi {

  const Esc: char := '\U{1B}'

  /** Parameters of an SGR sequence: they hold neither the escape nor the final 'm'. */
  predicate SgrParams(p: string) {
    Esc !in p && 'm' !in p
  }

  /** The escape sequence `ESC [ p m` (written "\033[pm" in the C++ sources). */
  function Sgr(p: string): (r: string)
    ensures |r| == |p| + 3 && r[0] == Esc && r[|r| - 1] == 'm'
  {
    [Esc, '['] + p + "m"
  }

  /** "\033[0;0m", the reset sequence closing every coloured segment. */
  const Reset: string := Sgr("0;0")

  /** The text after the first 'm' of `s` (all of an unterminated sequence is dropped). */
  function SkipPastM(s: string): (r: string)
    ensures |r| <= |s|
  {
    if s == [] then []
    else if s[0] == 'm' then s[1..]
    else SkipPastM(s[1..])
  }

  /** What a terminal displays: `s` with every escape sequence removed. */
  function StripEscapes(s: string): (r: string)
    ensures Esc !in r
    ensures |r| <= |s|
    decreases |s|
  {
    if s == [] then []
    else if s[0] == Esc then StripEscapes(SkipPastM(s[1..]))
    else [s[0]] + StripEscapes(s[1..])
  }

  /** Every escape sequence in `s` is terminated by an 'm'. */
  predicate Closed(s: string)
    decreases |s|
  {
    if s == [] then true
    else if s[0] == Esc then 'm' in s[1..] && Closed(SkipPastM(s[1..]))
    else Closed(s[1..])
  }

  lemma {:induction false} SkipPastParams(p: string, t: string)
    requires 'm' !in p
    ensures SkipPastM(p + "m" + t) == t
    decreases |p|
  {
    if p != [] {
      assert (p + "m" + t)[1..] == p[1..] + "m" + t;
      SkipPastParams(p[1..], t);
    }
  }

  lemma {:induction false} SkipPastAppend(x: string, b: string)
    requires 'm' in x
    ensures SkipPastM(x + b) == SkipPastM(x) + b
    decreases |x|
  {
    if x[0] == 'm' {
      assert (x + b)[1..] == x[1..] + b;
    } else {
      assert (x + b)[1..] == x[1..] + b;
      SkipPastAppend(x[1..], b);
    }
  }

  /** Text without an escape character is closed and displayed unchanged. */
  lemma {:induction false} StripPlain(a: string)
    requires Esc !in a
    ensures Closed(a) && StripEscapes(a) == a
    decreases |a|
  {
    if a != [] {
      assert a[0] in a;
      assert Esc !in a[1..] by {
        forall c | c in a[1..] ensures c in a { }
      }
      StripPlain(a[1..]);
      assert a == [a[0]] + a[1..];
    }
  }

  /** An SGR sequence is closed and invisible. */
  lemma StripSgr(p: string)
    requires SgrParams(p)
    ensures Closed(Sgr(p)) && StripEscapes(Sgr(p)) == []
  {
    var s := Sgr(p);
    assert s[1..] == ['['] + p + "m" + [];
    assert 'm' in s[1..] by { assert s[1..][|s| - 2] == 'm'; }
    SkipPastParams(['['] + p, []);
  }

  /**
   * Removing escapes distributes over concatenation when the left part closes
   * all its sequences, and closed texts stay closed when joined.
   */
  lemma {:induction false} StripAppend(a: string, b: string)
    requires Closed(a)
    ensures StripEscapes(a + b) == StripEscapes(a) + StripEscapes(b)
    ensures Closed(b) ==> Closed(a + b)
    decreases |a|
  {
    if a == [] {
      assert a + b == b;
    } else if a[0] == Esc {
      var rest := SkipPastM(a[1..]);
      assert (a + b)[1..] == a[1..] + b;
      SkipPastAppend(a[1..], b);
      assert 'm' in (a + b)[1..] by {
        var k :| 0 <= k < |a[1..]| && a[1..][k] == 'm';
        assert (a + b)[1..][k] == 'm';
      }
      StripAppend(rest, b);
    } else {
      assert (a + b)[1..] == a[1..] + b;
      StripAppend(a[1..], b);
      assert [a[0]] + StripEscapes(a[1..]) + StripEscapes(b) == [a[0]] + (StripEscapes(a[1..]) + StripEscapes(b));
    }
  }

  /** `pre <code> word <reset> post` displays as `pre word post`. */
  lemma StripColoured(pre: string, p: string, word: string, q: string, post: string)
    requires Esc !in pre && Esc !in word && Esc !in post
    requires SgrParams(p) && SgrParams(q)
    ensures StripEscapes(pre + Sgr(p) + word + Sgr(q) + post) == pre + word + post
  {
    var x, y := Sgr(p), Sgr(q);
    StripPlain(pre); StripPlain(word); StripPlain(post);
    StripSgr(p); StripSgr(q);
    var a1 := pre + x;
    StripAppend(pre, x);
    var a2 := a1 + word;
    StripAppend(a1, word);
    var a3 := a2 + y;
    StripAppend(a2, y);
    StripAppend(a3, post);
    var e: string := [];
    assert pre + e == pre;
    assert pre + word + e == pre + word;
    assert StripEscapes(a3 + post) == pre + word + post;
  }
}
