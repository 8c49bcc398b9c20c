/** What the user has agreed to: the bytes that the parent sends, and what is on record of the
    questions and answers, for the procedures of action.c that ask before they change
    anything. */
module ActionConsent {
  import opened FileTree
  import opened ActionWorld

  // ----- the bytes

  function Count(s: seq<char>, c: char): nat {
    if s == [] then 0 else (if s[0] == c then 1 else 0) + Count(s[1..], c)
  }

  /** There are no more bytes that agree, to one thing or to all. */
  ghost predicate NoMoreYeses(s: seq<char>, t: seq<char>) {
    Count(t, 'Y') <= Count(s, 'Y') && Count(t, 'A') <= Count(s, 'A')
  }

  /** The option that a letter stands for. */
  function Setting(o: Options, letter: char): bool {
    match letter
    case 'Q' => o.quiet
    case 'F' => o.force
    case 'R' => o.recurse
    case 'B' => o.brief
    case 'M' => o.merge
    case 'W' => o.newer
    case _ => o.ignore
  }

  predicate IsLetter(c: char) {
    c == 'Q' || c == 'F' || c == 'R' || c == 'B' || c == 'M' || c == 'W' || c == 'I'
  }

  /** An option differs only if its own letter was among the bytes that have been read, and
      nothing is read that was not there. */
  ghost predicate Follows(x: Input, y: Input) {
    && (forall c :: IsLetter(c) && c !in x.rest ==> Setting(y.options, c) == Setting(x.options, c))
    && (forall c :: c in y.rest ==> c in x.rest) && NoMoreYeses(x.rest, y.rest)
  }

  lemma FollowsOn(x: Input, y: Input, z: Input)
    requires Follows(x, y) && Follows(y, z)
    ensures Follows(x, z)
  {
  }

  lemma {:induction false} AfterLineIn(s: seq<char>)
    ensures AfterLine(s).Some? ==>
      NoMoreYeses(s, AfterLine(s).value) && forall c :: c in AfterLine(s).value ==> c in s
    decreases |s|
  {
    if s != [] && s[0] != '\n' { AfterLineIn(s[1..]); }
  }

  /** Each letter inverts its own option and no other. */
  lemma ToggledSetting(o: Options, b: char, s: seq<char>, c: char)
    requires IsLetter(c)
    ensures Setting(Toggled(o, b, s).options, c) != Setting(o, c) <==> b == c
  {
    ToggledIs(o, b, s);
    hide Toggled;
  }

  function Inverted(o: Options, b: char): Options {
    Options(o.quiet != (b == 'Q'), o.force != (b == 'F'), o.recurse != (b == 'R'), o.brief != (b == 'B'),
            o.merge != (b == 'M'), o.newer != (b == 'W'), o.ignore != (b == 'I'))
  }

  lemma ToggledIs(o: Options, b: char, s: seq<char>)
    ensures Toggled(o, b, s).options == Inverted(o, b)
  {
  }

  lemma ToggledRest(o: Options, c: char, s: seq<char>)
    ensures var rest := Toggled(o, c, s).rest;
      && NoMoreYeses(s, rest) && (forall b :: b in rest ==> b in s)
      && (c != 'E' ==> rest == s && !Toggled(o, c, s).gone)
  {
    AfterLineIn(s);
  }

  lemma ToggledFollows(o: Options, s: seq<char>)
    requires s != []
    ensures Follows(Input(o, s, false), Toggled(o, s[0], s[1..]))
  {
    hide Toggled, Setting;
    forall c | IsLetter(c) && c !in s
      ensures Setting(Toggled(o, s[0], s[1..]).options, c) == Setting(o, c)
    {
      ToggledSetting(o, s[0], s[1..], c);
    }
    ToggledRest(o, s[0], s[1..]);
    OneLess(s);
  }

  lemma OneLess(s: seq<char>)
    requires s != []
    ensures s[0] in s && NoMoreYeses(s, s[1..]) && forall c :: c in s[1..] ==> c in s
    ensures s[0] == 'Y' ==> Count(s[1..], 'Y') < Count(s, 'Y')
    ensures s[0] == 'A' ==> Count(s[1..], 'A') < Count(s, 'A')
  {
  }

  lemma {:induction false} FlagsFollow(o: Options, s: seq<char>, n: nat)
    ensures Follows(Input(o, s, false), Flags(o, s, n))
    decreases n
  {
    hide Toggled, Follows;
    if n == 0 || s == [] {
      FollowsSelf(Input(o, s, false));
    } else {
      var x := Toggled(o, s[0], s[1..]);
      ToggledFollows(o, s);
      if !x.gone {
        FlagsFollow(x.options, x.rest, n - 1);
        FollowsOn(Input(o, s, false), x, Flags(o, s, n));
      }
    }
  }

  lemma FollowsSelf(x: Input)
    ensures Follows(x, x) && forall gone :: Follows(x, x.(gone := gone)) && Follows(x, x.(rest := [], gone := gone))
  {
  }

  lemma {:induction false} AnswerFollows(o: Options, s: seq<char>, conflict: bool)
    ensures var (answer, x) := ReadAnswer(o, s, conflict);
      && Follows(Input(o, s, false), x)
      && (answer == Yes ==> Count(x.rest, 'Y') < Count(s, 'Y'))
      && (answer == All ==> Count(x.rest, 'A') < Count(s, 'A'))
    decreases |s|
  {
    hide Toggled, Follows;
    if s == [] {
      FollowsSelf(Input(o, s, false));
    } else if s[0] in {'Y', 'N'} || (conflict && s[0] in {'A', 'S'}) {
      OneRead(o, s);
    } else {
      var x := Toggled(o, s[0], s[1..]);
      ToggledFollows(o, s);
      if !x.gone {
        AnswerFollows(x.options, x.rest, conflict);
        FollowsOn(Input(o, s, false), x, ReadAnswer(o, s, conflict).1);
        FollowsLess(Input(o, s, false), x);
      }
    }
  }

  lemma FollowsLess(x: Input, y: Input)
    requires Follows(x, y)
    ensures NoMoreYeses(x.rest, y.rest) && forall c :: c in y.rest ==> c in x.rest
  {
  }

  lemma OneRead(o: Options, s: seq<char>)
    requires s != []
    ensures Follows(Input(o, s, false), Input(o, s[1..], false)) && s[0] in s
    ensures s[0] == 'Y' ==> Count(s[1..], 'Y') < Count(s, 'Y')
    ensures s[0] == 'A' ==> Count(s[1..], 'A') < Count(s, 'A')
  {
    OneLess(s);
  }

  // ----- what the bytes mean

  /** The letters that announce an answer to a question, or to one about a conflict. */
  predicate Answers(c: char, conflict: bool) {
    c == 'Y' || c == 'N' || (conflict && (c == 'A' || c == 'S'))
  }

  /** The first byte that answers decides, whatever toggles come before it. */
  lemma {:induction false} FirstAnswerCounts(o: Options, before: seq<char>, c: char, rest: seq<char>, conflict: bool)
    requires Answers(c, conflict) && forall b :: b in before ==> !Answers(b, conflict) && b != 'E'
    ensures var (answer, x) := ReadAnswer(o, before + [c] + rest, conflict);
      && x.rest == rest && !x.gone
      && answer == (if c == 'Y' then Yes else if c == 'N' then No else if c == 'A' then All else Skip)
    decreases |before|
  {
    var s := before + [c] + rest;
    if before == [] {
      assert s[0] == c && s[1..] == rest;
    } else {
      assert s[0] == before[0] && s[1..] == before[1..] + [c] + rest;
      var x := Toggled(o, s[0], s[1..]);
      assert before[0] in before;
      FirstAnswerCounts(x.options, before[1..], c, rest, conflict);
    }
  }

  /** Nothing in a line of text answers or toggles anything. */
  lemma {:induction false} TextIsNoAnswer(o: Options, text: seq<char>, rest: seq<char>, conflict: bool)
    requires '\n' !in text
    ensures ReadAnswer(o, ['E'] + text + ['\n'] + rest, conflict) == ReadAnswer(o, rest, conflict)
  {
    var s := ['E'] + text + ['\n'] + rest;
    assert s[0] == 'E' && s[1..] == text + ['\n'] + rest;
    LineSkipped(text, rest);
  }

  lemma {:induction false} LineSkipped(text: seq<char>, rest: seq<char>)
    requires '\n' !in text
    ensures AfterLine(text + ['\n'] + rest).Some? && AfterLine(text + ['\n'] + rest).value == rest
    decreases |text|
  {
    var s := text + ['\n'] + rest;
    if text == [] {
      assert s[1..] == rest;
    } else {
      assert s[0] == text[0] && s[1..] == text[1..] + ['\n'] + rest;
      LineSkipped(text[1..], rest);
    }
  }

  /** After `n` bytes without a line of text an option is inverted if and only if its letter
      came an odd number of times. */
  lemma {:induction false} TogglesInvert(o: Options, s: seq<char>, n: nat, c: char)
    requires n <= |s| && 'E' !in s && IsLetter(c)
    ensures var x := Flags(o, s, n);
      && x.rest == s[n..] && !x.gone
      && (Setting(x.options, c) != Setting(o, c) <==> Count(s[..n], c) % 2 == 1)
    decreases n
  {
    hide Toggled, Setting;
    if n > 0 {
      assert s[..n][0] == s[0] && s[..n][1..] == s[1..][..n - 1] && s[0] in s;
      ToggledSetting(o, s[0], s[1..], c);
      ToggledRest(o, s[0], s[1..]);
      TogglesInvert(Toggled(o, s[0], s[1..]).options, s[1..], n - 1, c);
    }
  }

  // ----- the record

  /** How often the user has agreed, to one entry or to all that follow. */
  function Agreements(es: seq<Event>, all: bool): nat {
    if es == [] then 0 else (if es[0].Agreed? && es[0].all == all then 1 else 0) + Agreements(es[1..], all)
  }

  lemma AgreementsOne(e: Event, all: bool)
    ensures Agreements([e], all) == if e.Agreed? && e.all == all then 1 else 0
  {
    assert [e][1..] == [];
  }

  lemma {:induction false} AgreementsSum(a: seq<Event>, b: seq<Event>, all: bool)
    ensures Agreements(a + b, all) == Agreements(a, all) + Agreements(b, all)
  {
    if a == [] {
      assert a + b == b;
    } else {
      assert (a + b)[1..] == a[1..] + b;
      AgreementsSum(a[1..], b, all);
    }
  }

  lemma {:induction false} NoAgreement(es: seq<Event>, p: Path, all: bool)
    requires Agreements(es, all) == 0
    ensures Agreed(p, all) !in es
  {
    if es != [] { NoAgreement(es[1..], p, all); }
  }

  lemma {:induction false} NoCount(s: seq<char>, c: char)
    requires c !in s
    ensures Count(s, c) == 0
  {
    if s != [] { NoCount(s[1..], c); }
  }

  /** What is on record has been heard from the parent: every agreement has used up a byte that
      agrees, and the options that decided whether to ask are those the bytes have made of the
      first ones. */
  ghost predicate Heard(x: Input, y: Input, es: seq<Event>) {
    && Follows(x, y)
    && Agreements(es, false) + Count(y.rest, 'Y') <= Count(x.rest, 'Y')
    && Agreements(es, true) + Count(y.rest, 'A') <= Count(x.rest, 'A')
    && (forall p, o, asked :: Weighed(p, o, asked) in es ==> Follows(x, Input(o, [], false)))
  }

  lemma HeardNothing(x: Input)
    ensures Heard(x, x, [])
  {
  }

  lemma HeardThen(x: Input, y: Input, z: Input, es: seq<Event>, more: seq<Event>)
    requires Heard(x, y, es) && Heard(y, z, more)
    ensures Heard(x, z, es + more)
  {
    FollowsOn(x, y, z);
    AgreementsSum(es, more, false);
    AgreementsSum(es, more, true);
    forall p, o, asked | Weighed(p, o, asked) in es + more ensures Follows(x, Input(o, [], false)) {
      if Weighed(p, o, asked) in more { FollowsOn(x, y, Input(o, [], false)); }
    }
  }

  /** Something else happens. */
  lemma HeardElse(x: Input, y: Input, es: seq<Event>, e: Event)
    requires Heard(x, y, es) && !e.Goes()
    ensures Heard(x, y, es + [e])
  {
    AgreementsSum(es, [e], false);
    AgreementsSum(es, [e], true);
  }

  /** Reading toggles is heard, also when the parent is found to be gone. */
  lemma HeardFlags(x: Input, y: Input, n: nat, e: Event)
    requires !x.gone && !e.Goes()
    requires y == Flags(x.options, x.rest, n)
             || (Flags(x.options, x.rest, n).rest == [] && y == Flags(x.options, x.rest, n).(gone := true))
    ensures Heard(x, y, [e])
  {
    hide Flags, Follows;
    var z := Flags(x.options, x.rest, n);
    assert x == Input(x.options, x.rest, false);
    FlagsFollow(x.options, x.rest, n);
    FollowsSelf(z);
    assert z == z.(gone := z.gone) && Follows(z, y);
    FollowsOn(x, z, y);
    FollowsLess(x, y);
    AgreementsOne(e, false);
    AgreementsOne(e, true);
  }

  /** So is a question with its answer, and so is going on without one. */
  lemma HeardAnswer(x: Input, conflict: bool, path: Path)
    requires !x.gone
    ensures var (answer, y) := ReadAnswer(x.options, x.rest, conflict);
      Heard(x, y, Answered(x.options, answer, path))
  {
    hide ReadAnswer, Follows;
    var (answer, y) := ReadAnswer(x.options, x.rest, conflict);
    assert x == Input(x.options, x.rest, false);
    AnswerFollows(x.options, x.rest, conflict);
    FollowsLess(x, y);
    SameOptions(x);
    var es := Answered(x.options, answer, path);
    assert es == [es[0]] + [es[1]];
    forall all ensures Agreements(es, all) == if es[1].Agreed? && es[1].all == all then 1 else 0 {
      AgreementsOne(es[0], all);
      AgreementsOne(es[1], all);
      AgreementsSum([es[0]], [es[1]], all);
    }
  }

  lemma SameOptions(x: Input)
    ensures Follows(x, Input(x.options, [], false))
  {
  }

  lemma HeardUnasked(x: Input, path: Path)
    ensures Heard(x, x, [Weighed(path, x.options, false)])
  {
    FollowsSelf(x);
    SameOptions(x);
  }

  // ----- going on with an entry

  /** The user has agreed to go on with the entry, or did not have to be asked. */
  ghost predicate Consents(es: seq<Event>, p: Path) {
    (exists all :: Agreed(p, all) in es) || (exists o :: Weighed(p, o, false) in es)
  }

  /** The procedure has come to `p` and goes on. */
  ghost predicate Opening(p: Path, es: seq<Event>) {
    Reached(p) in es && forall e :: e in es ==> e == Reached(p) || (e.Goes() && e.path == p)
  }

  /** The user has said yes to all conflicts. */
  ghost predicate ForAll(es: seq<Event>) {
    exists p :: Agreed(p, true) in es
  }

  lemma ForAllMore(es: seq<Event>, more: seq<Event>)
    ensures ForAll(es + more) <==> ForAll(es) || ForAll(more)
  {
    assert forall e :: e in es + more <==> e in es || e in more;
  }

  lemma ConsentsMore(es: seq<Event>, more: seq<Event>, p: Path)
    ensures Consents(es, p) || Consents(more, p) ==> Consents(es + more, p)
  {
    assert forall e :: e in es + more <==> e in es || e in more;
  }
}
