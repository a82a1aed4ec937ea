// Text helpers shared by the timestamp parser, the announce list and the filter
// bar (libtransmission/string-utils.cc and string-utils.h).
module Text {

  // isspace() in the C locale.
  predicate IsSpace(c: char) {
    c == ' ' || c == '\t' || c == '\n' || c == '\r' || c == '\U{0B}' || c == '\U{0C}'
  }

  predicate AllSpace(s: string) {
    forall i :: 0 <= i < |s| ==> IsSpace(s[i])
  }

  // No white space at either end.
  predicate Stripped(s: string) {
    s != "" ==> !IsSpace(s[0]) && !IsSpace(s[|s| - 1])
  }

  function StripLeft(s: string): (r: string)
    ensures |r| <= |s|
  {
    if s == "" || !IsSpace(s[0]) then s else StripLeft(s[1..])
  }

  function StripRight(s: string): (r: string)
    ensures |r| <= |s|
  {
    if s == "" || !IsSpace(s[|s| - 1]) then s else StripRight(s[..|s| - 1])
  }

  // tr_strv_strip(): drops the leading, then the trailing white space.
  function Strip(s: string): (r: string)
    ensures |r| <= |s|
  {
    StripRight(StripLeft(s))
  }

  lemma {:induction false} StripLeftSplits(s: string)
    ensures var r := StripLeft(s);
            r == s[|s| - |r|..] && AllSpace(s[..|s| - |r|]) && (r != "" ==> !IsSpace(r[0]))
  {
    if s != "" && IsSpace(s[0]) {
      StripLeftSplits(s[1..]);
      var r := StripLeft(s[1..]);
      assert s[..|s| - |r|] == [s[0]] + s[1..][..|s| - 1 - |r|];
    }
  }

  lemma {:induction false} StripRightSplits(s: string)
    ensures var r := StripRight(s);
            r == s[..|r|] && AllSpace(s[|r|..]) && (r != "" ==> !IsSpace(r[|r| - 1]))
  {
    if s != "" && IsSpace(s[|s| - 1]) {
      var init := s[..|s| - 1];
      StripRightSplits(init);
      var r := StripRight(init);
      assert s[|r|..] == init[|r|..] + [s[|s| - 1]];
    }
  }

  // What Strip removes is white space, all of it, and nothing in between
  // changes.
  lemma StripSplits(s: string) returns (pre: string, post: string)
    ensures AllSpace(pre) && AllSpace(post) && s == pre + Strip(s) + post
    ensures Stripped(Strip(s))
  {
    var l := StripLeft(s);
    StripLeftSplits(s);
    var r := StripRight(l);
    StripRightSplits(l);
    pre, post := s[..|s| - |l|], l[|r|..];
  }

  // The same in plain characters.
  lemma StripMeaning(s: string) returns (pre: string, post: string)
    ensures s == pre + Strip(s) + post
    ensures forall c :: c in pre + post ==> c in {' ', '\t', '\n', '\U{0B}', '\U{0C}', '\r'}
    ensures var r := Strip(s);
            r != "" ==> r[0] !in {' ', '\t', '\n', '\U{0B}', '\U{0C}', '\r'}
                        && r[|r| - 1] !in {' ', '\t', '\n', '\U{0B}', '\U{0C}', '\r'}
  {
    pre, post := StripSplits(s);
  }

  lemma {:induction false} StripLeftPadded(pre: string, u: string)
    requires AllSpace(pre) && u != "" && !IsSpace(u[0])
    ensures StripLeft(pre + u) == u
  {
    if pre == "" {
      assert pre + u == u;
    } else {
      assert (pre + u)[1..] == pre[1..] + u;
      StripLeftPadded(pre[1..], u);
    }
  }

  lemma {:induction false} StripRightPadded(u: string, post: string)
    requires AllSpace(post) && u != "" && !IsSpace(u[|u| - 1])
    ensures StripRight(u + post) == u
  {
    if post == "" {
      assert u + post == u;
    } else {
      assert (u + post)[..|u + post| - 1] == u + post[..|post| - 1];
      StripRightPadded(u, post[..|post| - 1]);
    }
  }

  // Stripping recovers a stripped text from any padding around it.
  lemma StripPadded(pre: string, s: string, post: string)
    requires AllSpace(pre) && AllSpace(post) && Stripped(s) && s != ""
    ensures Strip(pre + s + post) == s
  {
    assert pre + s + post == pre + (s + post);
    StripLeftPadded(pre, s + post);
    StripRightPadded(s, post);
  }

  // White space at the end makes no difference.
  lemma StripSnoc(s: string, c: char)
    requires IsSpace(c)
    ensures Strip(s + [c]) == Strip(s)
  {
    StripLeftSnoc(s, c);
    var l := StripLeft(s);
    assert (l + [c])[..|l|] == l;
  }

  lemma {:induction false} StripLeftSnoc(s: string, c: char)
    requires IsSpace(c)
    ensures StripLeft(s + [c]) == if StripLeft(s) == "" then "" else StripLeft(s) + [c]
  {
    if s == "" {
      assert s + [c] == [c] && [c][1..] == "";
    } else {
      assert (s + [c])[1..] == s[1..] + [c];
      StripLeftSnoc(s[1..], c);
    }
  }

  lemma StripStripped(s: string)
    requires Stripped(s)
    ensures Strip(s) == s
  {
    if s != "" {
      StripPadded("", s, "");
      assert "" + s + "" == s;
    }
  }

  // ----- the order of std::string

  predicate TextLess(a: string, b: string) {
    if b == "" then false
    else if a == "" then true
    else if a[0] != b[0] then a[0] < b[0]
    else TextLess(a[1..], b[1..])
  }

  lemma {:induction false} TextLessTransitive(a: string, b: string, c: string)
    requires TextLess(a, b) && TextLess(b, c)
    ensures TextLess(a, c)
  {
    if a != "" && a[0] == b[0] == c[0] {
      TextLessTransitive(a[1..], b[1..], c[1..]);
    }
  }

  lemma {:induction false} TextLessTotal(a: string, b: string)
    ensures TextLess(a, b) || TextLess(b, a) || a == b
    ensures !TextLess(a, a) && !(TextLess(a, b) && TextLess(b, a))
    decreases |a|
  {
    if a != "" && b != "" {
      TextLessTotal(a[1..], b[1..]);
      if a[0] == b[0] && a[1..] == b[1..] {
        assert a == [a[0]] + a[1..] && b == [b[0]] + b[1..];
      }
    } else if a != "" {
      TextLessTotal(a[1..], a[1..]);
    }
  }

  // At the first difference the smaller character comes first, and a text comes
  // before every longer one it begins.
  lemma {:induction false} TextLessMeaning(a: string, b: string)
    ensures TextLess(a, b) <==> exists i: nat :: ComesBefore(a, b, i)
  {
    forall i: nat | ComesBefore(a, b, i) && i > 0
      ensures a != "" && b != "" && a[0] == b[0]
    {
      assert a[..i][0] == b[..i][0];
    }
    if a == "" {
      assert b != "" ==> ComesBefore(a, b, 0);
    } else if b != "" && a[0] != b[0] {
      assert a[0] < b[0] ==> ComesBefore(a, b, 0);
    } else if b != "" {
      TextLessMeaning(a[1..], b[1..]);
      if i: nat :| ComesBefore(a[1..], b[1..], i) {
        assert a[..i + 1] == [a[0]] + a[1..][..i] && b[..i + 1] == [b[0]] + b[1..][..i];
        assert ComesBefore(a, b, i + 1);
      }
      if i: nat :| ComesBefore(a, b, i) {
        assert a[1..][..i - 1] == a[..i][1..] && b[1..][..i - 1] == b[..i][1..];
        assert ComesBefore(a[1..], b[1..], i - 1);
      }
    }
  }

  predicate ComesBefore(a: string, b: string, i: nat) {
    i <= |a| && i < |b| && a[..i] == b[..i] && (i == |a| || a[i] < b[i])
  }
}
