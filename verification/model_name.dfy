/** The model-name recogniser of Unit.java. The pattern's last character class
    is escaped twice, so after a dash it accepts only the seven literal
    characters `\ p { L u } N`, not upper-case letters and digits. */
module ModelNames {

  /** The two Unicode categories the pattern names, `\p{Lu}` (upper-case
      letter) and `\p{N}` (number). A dash belongs to neither. */
  datatype Categories = Categories(isUpper: char -> bool, isNumber: char -> bool)
  {
    predicate DashIsNeither() {
      !isUpper('-') && !isNumber('-')
    }

    predicate IsHeadChar(c: char) {
      isUpper(c) || isNumber(c)
    }
  }

  /** The literal characters of the class `[\\p{Lu}\\p{N}]`. */
  const GROUP_CHARS: set<char> := {'\\', 'p', '{', 'L', 'u', '}', 'N'}

  // ---------------------------------------------------------------------------
  // The pattern, stated as a grammar

  ghost predicate HeadChars(cat: Categories, t: string) {
    forall j | 0 <= j < |t| :: cat.IsHeadChar(t[j])
  }

  ghost predicate GroupChars(t: string) {
    forall j | 0 <= j < |t| :: t[j] in GROUP_CHARS
  }

  /** `(?:-(?:[\\p{Lu}\\p{N}])+)*`: zero or more groups, each a dash followed by
      at least one character of the literal class. */
  ghost predicate DashGroups(t: string)
    decreases |t|
  {
    |t| == 0 || (t[0] == '-' && exists k :: 2 <= k <= |t| && GroupChars(t[1..k]) && DashGroups(t[k..]))
  }

  /** The whole pattern: one upper-case letter, then upper-case letters and
      numbers, then dash groups, matching the whole input. */
  ghost predicate MatchesPattern(cat: Categories, s: string) {
    |s| > 0 && cat.isUpper(s[0])
    && exists i :: 1 <= i <= |s| && HeadChars(cat, s[1..i]) && DashGroups(s[i..])
  }

  // ---------------------------------------------------------------------------
  // The recogniser

  datatype State = Start | InHead | AfterDash | InGroup

  /** A left-to-right automaton for the pattern: accepting in the head or
      inside a group. */
  function Run(cat: Categories, s: string, state: State): bool
    decreases |s|
  {
    if |s| == 0 then state == InHead || state == InGroup
    else
      var c := s[0];
      match state
      case Start => cat.isUpper(c) && Run(cat, s[1..], InHead)
      case InHead =>
        if cat.IsHeadChar(c) then Run(cat, s[1..], InHead)
        else c == '-' && Run(cat, s[1..], AfterDash)
      case AfterDash => c in GROUP_CHARS && Run(cat, s[1..], InGroup)
      case InGroup =>
        if c in GROUP_CHARS then Run(cat, s[1..], InGroup)
        else c == '-' && Run(cat, s[1..], AfterDash)
  }

  /** `isValidModel(model)`: the recogniser accepts exactly the strings the
      pattern matches. */
  function IsValidModel(cat: Categories, model: string): (valid: bool)
    requires cat.DashIsNeither()
    ensures valid <==> MatchesPattern(cat, model)
  {
    RunMatchesPattern(cat, model);
    Run(cat, model, Start)
  }

  lemma RunMatchesPattern(cat: Categories, s: string)
    requires cat.DashIsNeither()
    ensures Run(cat, s, Start) <==> MatchesPattern(cat, s)
  {
    if |s| > 0 && cat.isUpper(s[0]) {
      RunInHead(cat, s[1..]);
      if Run(cat, s, Start) {
        var i :| 0 <= i <= |s[1..]| && HeadChars(cat, s[1..][..i]) && DashGroups(s[1..][i..]);
        assert s[1..][..i] == s[1..i + 1];
        assert s[1..][i..] == s[i + 1..];
      }
      if MatchesPattern(cat, s) {
        var i :| 1 <= i <= |s| && HeadChars(cat, s[1..i]) && DashGroups(s[i..]);
        assert s[1..][..i - 1] == s[1..i];
        assert s[1..][i - 1..] == s[i..];
      }
    }
  }

  /** In the head: the rest is more head characters followed by dash groups. */
  lemma {:induction false} RunInHead(cat: Categories, t: string)
    requires cat.DashIsNeither()
    ensures Run(cat, t, InHead) <==> exists i :: 0 <= i <= |t| && HeadChars(cat, t[..i]) && DashGroups(t[i..])
    decreases |t|
  {
    if |t| == 0 {
      assert HeadChars(cat, t[..0]) && DashGroups(t[0..]);
    } else if cat.IsHeadChar(t[0]) {
      RunInHead(cat, t[1..]);
      if Run(cat, t, InHead) {
        var i :| 0 <= i <= |t[1..]| && HeadChars(cat, t[1..][..i]) && DashGroups(t[1..][i..]);
        assert t[..i + 1] == [t[0]] + t[1..][..i];
        assert t[i + 1..] == t[1..][i..];
      }
      if exists i :: 0 <= i <= |t| && HeadChars(cat, t[..i]) && DashGroups(t[i..]) {
        var i :| 0 <= i <= |t| && HeadChars(cat, t[..i]) && DashGroups(t[i..]);
        if i == 0 {
          assert t[i..][0] == t[0];
        } else {
          assert t[1..][..i - 1] == t[1..i];
          assert t[1..][i - 1..] == t[i..];
        }
      }
    } else {
      if t[0] == '-' {
        RunAfterDash(cat, t);
        assert t[..0] == [] && t[0..] == t;
      }
      if exists i :: 0 <= i <= |t| && HeadChars(cat, t[..i]) && DashGroups(t[i..]) {
        var i :| 0 <= i <= |t| && HeadChars(cat, t[..i]) && DashGroups(t[i..]);
        if i > 0 {
          assert t[..i][0] == t[0];
        }
      }
    }
  }

  /** At a dash: dash groups start here exactly when the automaton, past the
      dash, accepts the rest. */
  lemma {:induction false} RunAfterDash(cat: Categories, d: string)
    requires |d| > 0 && d[0] == '-'
    ensures DashGroups(d) <==> Run(cat, d[1..], AfterDash)
    decreases |d|, 0
  {
    var t := d[1..];
    if |t| > 0 && t[0] in GROUP_CHARS {
      RunInGroup(cat, t[1..]);
      assert DashGroups(d) ==> Run(cat, t, AfterDash) by {
        if DashGroups(d) {
          var k :| 2 <= k <= |d| && GroupChars(d[1..k]) && DashGroups(d[k..]);
          assert t[1..][..k - 2] == d[2..k];
          assert t[1..][k - 2..] == d[k..];
        }
      }
      assert Run(cat, t, AfterDash) ==> DashGroups(d) by {
        if Run(cat, t, AfterDash) {
          var k :| 0 <= k <= |t[1..]| && GroupChars(t[1..][..k]) && DashGroups(t[1..][k..]);
          assert d[1..k + 2] == [t[0]] + t[1..][..k];
          assert d[k + 2..] == t[1..][k..];
        }
      }
    } else {
      forall k | 2 <= k <= |d|
        ensures !GroupChars(d[1..k])
      {
        assert d[1..k][0] == t[0];
      }
    }
  }

  /** Inside a group: the rest is more group characters followed by dash
      groups. */
  lemma {:induction false} RunInGroup(cat: Categories, t: string)
    ensures Run(cat, t, InGroup) <==> exists k :: 0 <= k <= |t| && GroupChars(t[..k]) && DashGroups(t[k..])
    decreases |t|, 1
  {
    if |t| == 0 {
      assert GroupChars(t[..0]) && DashGroups(t[0..]);
    } else if t[0] in GROUP_CHARS {
      RunInGroup(cat, t[1..]);
      if Run(cat, t, InGroup) {
        var k :| 0 <= k <= |t[1..]| && GroupChars(t[1..][..k]) && DashGroups(t[1..][k..]);
        assert t[..k + 1] == [t[0]] + t[1..][..k];
        assert t[k + 1..] == t[1..][k..];
      }
      if exists k :: 0 <= k <= |t| && GroupChars(t[..k]) && DashGroups(t[k..]) {
        var k :| 0 <= k <= |t| && GroupChars(t[..k]) && DashGroups(t[k..]);
        if k == 0 {
          assert t[k..][0] == t[0];
        } else {
          assert t[1..][..k - 1] == t[1..k];
          assert t[1..][k - 1..] == t[k..];
        }
      }
    } else {
      if t[0] == '-' {
        RunAfterDash(cat, t);
        assert t[..0] == [] && t[0..] == t;
      }
      if exists k :: 0 <= k <= |t| && GroupChars(t[..k]) && DashGroups(t[k..]) {
        var k :| 0 <= k <= |t| && GroupChars(t[..k]) && DashGroups(t[k..]);
        if k > 0 {
          assert t[..k][0] == t[0];
        }
      }
    }
  }

  /** Upper-case letters and digits are rejected after a dash: with `A` upper
      case, "A-B" is not a valid model name, while "A-Lu" is. */
  lemma DashGroupExamples(cat: Categories)
    requires cat.DashIsNeither() && cat.isUpper('A') && cat.isUpper('B')
    ensures !IsValidModel(cat, "A-B")
    ensures IsValidModel(cat, "A-Lu")
  {
    assert "A-B"[1..] == "-B";
    assert "A-Lu"[1..] == "-Lu";
  }
}
