/** The field escaping of the wire format (message.go). */
module Escaping {
  import opened Text

  const SEPARATOR := ';'
  const REPLACEMENT: Bytes := "@%!semicolon@%!"
  /** The text whose escaped form starts with a replacement that is not the escape of its own semicolon. */
  const CLASHING: Bytes := "@%!semicolon;"

  function Escape(s: Bytes): Bytes {
    Replace(s, [SEPARATOR], REPLACEMENT)
  }

  function Unescape(s: Bytes): Bytes {
    Replace(s, REPLACEMENT, [SEPARATOR])
  }

  predicate Occurs(pattern: Bytes, s: Bytes) {
    exists i | 0 <= i <= |s| :: pattern <= s[i..]
  }

  /** What a field must avoid for the escaping to be undone. */
  predicate EscapeSafe(s: Bytes) {
    !Occurs(REPLACEMENT, s) && !Occurs(CLASHING, s)
  }

  lemma OccursTail(pattern: Bytes, s: Bytes)
    requires s != []
    ensures Occurs(pattern, s) <==> pattern <= s || Occurs(pattern, s[1..])
  {
    assert s[0..] == s;
    forall i | 0 <= i <= |s| - 1
      ensures s[1..][i..] == s[i + 1..]
    {
    }
    if Occurs(pattern, s) && !(pattern <= s) {
      var i :| 0 <= i <= |s| && pattern <= s[i..];
      assert pattern <= s[1..][i - 1..];
    }
    if Occurs(pattern, s[1..]) {
      var i :| 0 <= i <= |s[1..]| && pattern <= s[1..][i..];
      assert pattern <= s[i + 1..];
    }
  }

  lemma {:induction false} EscapeHasNoSeparator(s: Bytes)
    ensures SEPARATOR !in Escape(s)
  {
    if s != [] {
      EscapeHasNoSeparator(s[1..]);
      assert SEPARATOR !in REPLACEMENT;
      if s[0] != SEPARATOR { assert !([SEPARATOR] <= s); }
    }
  }

  /** Escaping copies everything up to the first separator. */
  lemma {:induction false} EscapeCopies(s: Bytes, k: nat)
    requires k <= |s| && SEPARATOR !in s[..k]
    ensures Escape(s) == s[..k] + Escape(s[k..])
  {
    if k == 0 {
      assert s[0..] == s;
    } else {
      assert s[0] == s[..k][0];
      assert !([SEPARATOR] <= s);
      assert s[1..][..k - 1] == s[1..k] && s[1..][k - 1..] == s[k..];
      assert forall x | x in s[1..k] :: x in s[..k];
      EscapeCopies(s[1..], k - 1);
      assert s[..k] == [s[0]] + s[1..k];
    }
  }

  /** An escaped text that starts with an ordinary byte starts with the replacement exactly when the text
      itself starts with the replacement or with the clashing text: the replacement overlaps itself in
      three bytes and in no other way. */
  lemma ReplacementAtStart(s: Bytes)
    requires s != [] && s[0] != SEPARATOR
    ensures REPLACEMENT <= Escape(s) <==> REPLACEMENT <= s || CLASHING <= s
  {
    var k := IndexOf(s, SEPARATOR);
    EscapeCopies(s, k);
    if k == |s| {
      assert s[..k] == s && Escape(s[k..]) == [];
      assert CLASHING[12] == SEPARATOR && forall i | 0 <= i < |s| :: s[i] != SEPARATOR;
    } else {
      assert [SEPARATOR] <= s[k..];
      var tail := Escape(s[k..][1..]);
      assert Escape(s) == s[..k] + (REPLACEMENT + tail);
      ReplacementAfter(s, k, tail);
    }
  }

  lemma ReplacementAfter(s: Bytes, k: nat, tail: Bytes)
    requires 0 < k < |s| && SEPARATOR !in s[..k] && s[k] == SEPARATOR
    ensures REPLACEMENT <= s[..k] + (REPLACEMENT + tail) <==> REPLACEMENT <= s || CLASHING <= s
  {
    var e := s[..k] + (REPLACEMENT + tail);
    assert forall i | 0 <= i < k :: s[..k][i] == s[i] && s[i] != SEPARATOR;
    if CLASHING <= s {
      assert s[12] == CLASHING[12] == SEPARATOR;
      assert forall i | 0 <= i < 12 :: s[i] == CLASHING[i] && CLASHING[i] != SEPARATOR;
      assert k == 12;
      assert REPLACEMENT == CLASHING[..12] + REPLACEMENT[..3];
    }
    if REPLACEMENT <= s {
      assert s[..15] == REPLACEMENT;
      assert e[..15] == s[..15];
    }
    if REPLACEMENT <= e && !(REPLACEMENT <= s) {
      assert e[k] == REPLACEMENT[0] == '@' && e[k] == REPLACEMENT[k];
      assert k == 12;
      assert forall i | 0 <= i < 12 :: s[i] == e[i] == REPLACEMENT[i] == CLASHING[i];
      assert CLASHING == s[..13];
    }
  }

  /** Unescaping undoes escaping exactly on the safe texts; on any other text the result holds a separator. */
  lemma {:induction false} UnescapeEscape(s: Bytes)
    ensures Unescape(Escape(s)) == s <==> EscapeSafe(s)
    ensures !EscapeSafe(s) ==> SEPARATOR in Unescape(Escape(s))
  {
    if s == [] {
      assert !(REPLACEMENT <= s[0..]) && !(CLASHING <= s[0..]);
    } else {
      UnescapeEscape(s[1..]);
      OccursTail(REPLACEMENT, s);
      OccursTail(CLASHING, s);
      var e := Escape(s[1..]);
      if s[0] == SEPARATOR {
        assert Escape(s) == REPLACEMENT + e;
        assert (REPLACEMENT + e)[|REPLACEMENT|..] == e;
        assert Unescape(Escape(s)) == [SEPARATOR] + Unescape(e);
      } else {
        assert !([SEPARATOR] <= s);
        assert Escape(s) == [s[0]] + e;
        ReplacementAtStart(s);
        if REPLACEMENT <= Escape(s) {
          assert Unescape(Escape(s))[0] == SEPARATOR;
        } else {
          assert Unescape(Escape(s)) == [s[0]] + Unescape(e);
        }
      }
    }
  }
}
