/**
 * String matching as the widget's regular expressions do it, and the escaping
 * that `getValue` applies to the user's text before it becomes part of a regular
 * expression.
 */
module Text {

  /**
   * Case folding of a regular expression with the `i` flag, for the letters of
   * ASCII and Latin-1: an upper-case letter stands for its lower-case form.
   */
  function Fold(c: char): char
  {
    var n := c as int;
    if 0x41 <= n <= 0x5A || (0xC0 <= n <= 0xDE && n != 0xD7) then (n + 32) as char else c
  }

  /** `new RegExp('^' + q, 'i')` finds a match in `s`: `s` starts with `q`, ignoring case. */
  predicate StartsWith(s: string, q: string)
  {
    |q| <= |s| && forall i :: 0 <= i < |q| ==> Fold(s[i]) == Fold(q[i])
  }

  /** `new RegExp(q, 'i')` finds a match in `s`: `q` occurs somewhere in `s`, ignoring case. */
  predicate Contains(s: string, q: string)
  {
    exists k :: 0 <= k <= |s| - |q| && StartsWith(s[k..], q)
  }

  /** A prefix match is also a match anywhere. */
  lemma StartsWithContains(s: string, q: string)
    requires StartsWith(s, q)
    ensures Contains(s, q)
  {
    assert s[0..] == s;
  }

  /** The empty query matches every value, at its start. */
  lemma EmptyQueryMatches(s: string)
    ensures StartsWith(s, "") && Contains(s, "")
  {
    StartsWithContains(s, "");
  }

  /** `a` and `b` are the same text up to case. */
  predicate SameIgnoringCase(a: string, b: string)
  {
    |a| == |b| && forall i :: 0 <= i < |a| ==> Fold(a[i]) == Fold(b[i])
  }

  /** JavaScript's `\s`: the white-space and line-terminator characters. */
  predicate IsWhiteSpace(c: char)
  {
    var n := c as int;
    (0x09 <= n <= 0x0D) || n == 0x20 || n == 0xA0 || n == 0x1680 || (0x2000 <= n <= 0x200A)
    || n == 0x2028 || n == 0x2029 || n == 0x202F || n == 0x205F || n == 0x3000 || n == 0xFEFF
  }

  /** The characters `getValue` puts a backslash in front of: the class `[-[\]{}()*+?.,\\^$|#\s]`. */
  predicate IsSpecial(c: char)
  {
    c in "-[]{}()*+?.,\\^$|#" || IsWhiteSpace(c)
  }

  /** `str.replace(/[-[\]{}()*+?.,\\^$|#\s]/g, '\\$&')`. */
  function Escape(s: string): string
  {
    if s == [] then [] else (if IsSpecial(s[0]) then ['\\', s[0]] else [s[0]]) + Escape(s[1..])
  }

  /** Drops the backslash in front of every escaped character: what the regular expression matches literally. */
  function Unescape(t: string): string
    decreases |t|
  {
    if t == [] then []
    else if t[0] == '\\' && |t| >= 2 then [t[1]] + Unescape(t[2..])
    else [t[0]] + Unescape(t[1..])
  }

  /** Text in which every special character is escaped and every backslash escapes one. */
  predicate WellEscaped(t: string)
    decreases |t|
  {
    t == []
    || (|t| >= 2 && t[0] == '\\' && IsSpecial(t[1]) && WellEscaped(t[2..]))
    || (!IsSpecial(t[0]) && WellEscaped(t[1..]))
  }

  /** Unescaping an escaped text gives back the user's raw input. */
  lemma {:induction false} UnescapeEscape(s: string)
    ensures Unescape(Escape(s)) == s
  {
    if s != [] {
      UnescapeEscape(s[1..]);
      var rest := Escape(s[1..]);
      if IsSpecial(s[0]) {
        var t := ['\\', s[0]] + rest;
        assert t[2..] == rest;
        assert Unescape(t) == [s[0]] + Unescape(rest);
      } else {
        var t := [s[0]] + rest;
        assert t[1..] == rest;
        assert Unescape(t) == [s[0]] + Unescape(rest);
      }
    }
  }

  /** What `getValue` returns leaves no special character unescaped. */
  lemma {:induction false} EscapeWellEscaped(s: string)
    ensures WellEscaped(Escape(s))
  {
    if s != [] {
      EscapeWellEscaped(s[1..]);
      var rest := Escape(s[1..]);
      if IsSpecial(s[0]) {
        assert (['\\', s[0]] + rest)[2..] == rest;
      } else {
        assert ([s[0]] + rest)[1..] == rest;
      }
    }
  }

  /** Escaped text is exactly the escaping of what it stands for, so the escaping is one-to-one. */
  lemma {:induction false} EscapeUnescape(t: string)
    requires WellEscaped(t)
    ensures Escape(Unescape(t)) == t
    decreases |t|
  {
    if t != [] {
      if |t| >= 2 && t[0] == '\\' && IsSpecial(t[1]) && WellEscaped(t[2..]) {
        EscapeUnescape(t[2..]);
        assert Unescape(t) == [t[1]] + Unescape(t[2..]);
        assert ([t[1]] + Unescape(t[2..]))[1..] == Unescape(t[2..]);
        assert t == ['\\', t[1]] + t[2..];
      } else {
        EscapeUnescape(t[1..]);
        assert t[0] != '\\';
        assert Unescape(t) == [t[0]] + Unescape(t[1..]);
        assert ([t[0]] + Unescape(t[1..]))[1..] == Unescape(t[1..]);
        assert t == [t[0]] + t[1..];
      }
    }
  }
}
