/** s/old/with/ on a file name: subst of bulk_rename.c.  Where the expression matches is up to
    the regular-expression library. */
module Substitution {
  import opened Basics

  /** A sub-expression's place in the name; `start` is -1 if it took no part in the match. */
  datatype Match = Match(start: int, end: int)

  const MAX_SUBS := 10

  /** What regexec promises of the places it reports. */
  predicate Reported(old_: string, found: seq<Match>) {
    && |found| == MAX_SUBS && found[0].start != -1
    && forall i :: 0 <= i < MAX_SUBS ==> found[i].start == -1 || 0 <= found[i].start <= found[i].end <= |old_|
  }

  function Group(old_: string, found: seq<Match>, i: nat): string
    requires Reported(old_, found) && i < MAX_SUBS
  {
    if found[i].start == -1 then "" else old_[found[i].start..found[i].end]
  }

  /** A backslash and a digit stand for a sub-expression, a backslash and anything else for
      that; a backslash at the end stands for itself. */
  function Expanded(old_: string, found: seq<Match>, with: string): string
    requires Reported(old_, found)
  {
    if with == "" then ""
    else if with[0] == '\\' && |with| > 1 then
      (if '0' <= with[1] <= '9' then Group(old_, found, with[1] as int - '0' as int) else [with[1]])
      + Expanded(old_, found, with[2..])
    else [with[0]] + Expanded(old_, found, with[1..])
  }

  lemma ExpandedStep(old_: string, found: seq<Match>, with: string, i: nat)
    requires Reported(old_, found) && i < |with|
    ensures Expanded(old_, found, with[i..]) ==
      if with[i] == '\\' && i + 1 < |with| then
        (if '0' <= with[i + 1] <= '9' then Group(old_, found, with[i + 1] as int - '0' as int) else [with[i + 1]])
        + Expanded(old_, found, with[i + 2..])
      else [with[i]] + Expanded(old_, found, with[i + 1..])
  {
    hide Expanded, Group;
    var w := with[i..];
    assert w[0] == with[i] && w[1..] == with[i + 1..];
    if |w| > 1 { assert w[1] == with[i + 1] && w[2..] == with[i + 2..]; }
    Unfolded(old_, found, w);
  }

  lemma Unfolded(old_: string, found: seq<Match>, w: string)
    requires Reported(old_, found) && w != ""
    ensures Expanded(old_, found, w) ==
      if w[0] == '\\' && |w| > 1 then
        (if '0' <= w[1] <= '9' then Group(old_, found, w[1] as int - '0' as int) else [w[1]])
        + Expanded(old_, found, w[2..])
      else [w[0]] + Expanded(old_, found, w[1..])
  {
  }

  /** subst, after a match */
  method Subst(old_: string, found: seq<Match>, with: string) returns (new_: string)
    requires Reported(old_, found)
    ensures new_ == old_[..found[0].start] + Expanded(old_, found, with) + old_[found[0].end..]
  {
    hide Expanded, Group;
    var start := old_[..found[0].start];
    new_ := start;
    var i := 0;
    ghost var done := "";
    assert with[0..] == with;
    while i < |with|
      invariant 0 <= i <= |with| && new_ == start + done
      invariant done + Expanded(old_, found, with[i..]) == Expanded(old_, found, with)
    {
      ExpandedStep(old_, found, with, i);
      ghost var piece := [with[i]];
      if with[i] == '\\' && i + 1 < |with| {
        i := i + 1;
        piece := if '0' <= with[i] <= '9' then Group(old_, found, with[i] as int - '0' as int) else [with[i]];
        if '0' <= with[i] && with[i] as int - '0' as int < MAX_SUBS {
          var subpat := with[i] as int - '0' as int;
          GroupIs(old_, found, subpat);
          if found[subpat].start != -1 {
            new_ := new_ + old_[found[subpat].start..found[subpat].end];
          }
        } else {
          new_ := new_ + [with[i]];
        }
      } else {
        new_ := new_ + [with[i]];
      }
      i := i + 1;
      Regroup(done, piece, Expanded(old_, found, with[i..]));
      Regroup(start, done, piece);
      done := done + piece;
    }
    NothingLeft(old_, found, with);
    new_ := new_ + old_[found[0].end..];
  }

  lemma GroupIs(old_: string, found: seq<Match>, i: nat)
    requires Reported(old_, found) && i < MAX_SUBS
    ensures found[i].start == -1 ==> Group(old_, found, i) == ""
    ensures found[i].start != -1 ==> Group(old_, found, i) == old_[found[i].start..found[i].end]
  {
  }

  lemma NothingLeft(old_: string, found: seq<Match>, with: string)
    requires Reported(old_, found)
    ensures Expanded(old_, found, with[|with|..]) == ""
  {
  }

  /** Each backslash preceded by another. */
  function Escaped(s: string): string {
    if s == "" then "" else (if s[0] == '\\' then "\\\\" else [s[0]]) + Escaped(s[1..])
  }

  /** A replacement with its backslashes escaped is used as it stands. */
  lemma {:induction false} EscapedIsLiteral(old_: string, found: seq<Match>, s: string)
    requires Reported(old_, found)
    ensures Expanded(old_, found, Escaped(s)) == s
  {
    if s != "" {
      EscapedIsLiteral(old_, found, s[1..]);
      if s[0] == '\\' {
        assert Escaped(s)[2..] == Escaped(s[1..]);
      } else {
        assert Escaped(s)[1..] == Escaped(s[1..]);
      }
    }
  }

  /** What is put in the place of a backslash and `c`: what sub-expression `c` matched, if `c` is
      a digit and it took part in the match, and otherwise `c`. */
  ghost predicate StandsFor(old_: string, found: seq<Match>, c: char, text: string) {
    if !('0' <= c <= '9') then text == [c]
    else
      var k := c as int - '0' as int;
      && k < |found|
      && if found[k].start < 0 then text == ""
         else 0 <= found[k].start <= found[k].end <= |old_| && text == old_[found[k].start..found[k].end]
  }

  /** Between any literal texts, each back-reference is replaced by what it stands for, so \0 by
      the whole match; and a backslash at the very end is a backslash. */
  lemma {:induction false} References(old_: string, found: seq<Match>, a: string, c: char, b: string)
    requires Reported(old_, found)
    ensures exists text :: StandsFor(old_, found, c, text) &&
              Expanded(old_, found, Escaped(a) + ['\\', c] + Escaped(b)) == a + text + b
    ensures Expanded(old_, found, Escaped(a) + "\\") == a + "\\"
  {
    hide Expanded, Escaped;
    if a == "" {
      OneReference(old_, found, c, b);
      EscapedIsLiteral(old_, found, "");
    } else {
      References(old_, found, a[1..], c, b);
      var text :| StandsFor(old_, found, c, text) &&
        Expanded(old_, found, Escaped(a[1..]) + ['\\', c] + Escaped(b)) == a[1..] + text + b;
      LiteralFirst(old_, found, a, ['\\', c] + Escaped(b));
      LiteralFirst(old_, found, a, "\\");
      assert Escaped(a) + (['\\', c] + Escaped(b)) == Escaped(a) + ['\\', c] + Escaped(b);
      assert Escaped(a[1..]) + (['\\', c] + Escaped(b)) == Escaped(a[1..]) + ['\\', c] + Escaped(b);
      assert [a[0]] + (a[1..] + text + b) == a + text + b && [a[0]] + (a[1..] + "\\") == a + "\\";
    }
  }

  /** In particular \0 puts back what was matched. */
  lemma WholeMatch(old_: string, found: seq<Match>, a: string, b: string)
    requires Reported(old_, found)
    ensures Expanded(old_, found, Escaped(a) + "\\0" + Escaped(b)) == a + old_[found[0].start..found[0].end] + b
  {
    hide Expanded, Escaped;
    References(old_, found, a, '0', b);
    assert "\\0" == ['\\', '0'];
  }

  lemma OneReference(old_: string, found: seq<Match>, c: char, b: string)
    requires Reported(old_, found)
    ensures exists text :: StandsFor(old_, found, c, text) &&
              Expanded(old_, found, Escaped("") + ['\\', c] + Escaped(b)) == "" + text + b
    ensures Expanded(old_, found, Escaped("") + "\\") == "" + "\\"
  {
    hide Expanded, StandsFor;
    var e := Escaped(b);
    EscapedIsLiteral(old_, found, b);
    assert Escaped("") + "\\" == "\\" && Escaped("") + ['\\', c] + e == ['\\', c] + e;
    LastBackslash(old_, found);
    ReferenceHere(old_, found, c, e);
    var text :| StandsFor(old_, found, c, text) &&
      Expanded(old_, found, ['\\', c] + e) == text + Expanded(old_, found, e);
    assert "" + text + b == text + b && "" + "\\" == "\\";
  }

  lemma LastBackslash(old_: string, found: seq<Match>)
    requires Reported(old_, found)
    ensures Expanded(old_, found, "\\") == "\\"
  {
    hide Expanded, Group;
    Unfolded(old_, found, "\\");
    NothingLeft(old_, found, "\\");
    assert "\\"[1..] == "";
  }

  lemma ReferenceHere(old_: string, found: seq<Match>, c: char, rest: string)
    requires Reported(old_, found)
    ensures exists text :: StandsFor(old_, found, c, text) &&
              Expanded(old_, found, ['\\', c] + rest) == text + Expanded(old_, found, rest)
  {
    hide Expanded;
    var text := if '0' <= c <= '9' then Group(old_, found, c as int - '0' as int) else [c];
    var w := ['\\', c] + rest;
    assert w[0] == '\\' && w[1] == c && w[2..] == rest;
    Unfolded(old_, found, w);
    assert StandsFor(old_, found, c, text);
  }

  /** An escaped text gives its first character and goes on with the rest. */
  lemma LiteralFirst(old_: string, found: seq<Match>, a: string, rest: string)
    requires Reported(old_, found) && a != ""
    ensures Expanded(old_, found, Escaped(a) + rest) == [a[0]] + Expanded(old_, found, Escaped(a[1..]) + rest)
  {
    hide Expanded, Escaped;
    var e := Escaped(a[1..]);
    EscapedFirst(a);
    if a[0] == '\\' {
      EscapedHere(old_, found, e + rest);
      assert Escaped(a) + rest == ['\\', '\\'] + (e + rest);
    } else {
      PlainHere(old_, found, a[0], e + rest);
      assert Escaped(a) + rest == [a[0]] + (e + rest);
    }
  }

  lemma EscapedHere(old_: string, found: seq<Match>, rest: string)
    requires Reported(old_, found)
    ensures Expanded(old_, found, ['\\', '\\'] + rest) == ['\\'] + Expanded(old_, found, rest)
  {
    hide Expanded, Group;
    var w := ['\\', '\\'] + rest;
    assert w[0] == '\\' && w[1] == '\\' && w[2..] == rest;
    Unfolded(old_, found, w);
  }

  lemma PlainHere(old_: string, found: seq<Match>, c: char, rest: string)
    requires Reported(old_, found) && c != '\\'
    ensures Expanded(old_, found, [c] + rest) == [c] + Expanded(old_, found, rest)
  {
    hide Expanded, Group;
    var w := [c] + rest;
    assert w[0] == c && w[1..] == rest;
    Unfolded(old_, found, w);
  }

  lemma EscapedFirst(a: string)
    requires a != ""
    ensures Escaped(a) == (if a[0] == '\\' then ['\\', '\\'] else [a[0]]) + Escaped(a[1..])
  {
  }
}
