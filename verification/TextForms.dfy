/** String handling at the request boundary: blank space, letter case, comma-separated lists. */
module TextForms {

  /** The characters a string strip removes: Unicode white space. */
  predicate IsSpace(c: char) {
    || '\U{0009}' <= c <= '\U{000D}' || '\U{001C}' <= c <= '\U{0020}' || c == '\U{0085}' || c == '\U{00A0}'
    || c == '\U{1680}' || '\U{2000}' <= c <= '\U{200A}' || c == '\U{2028}' || c == '\U{2029}'
    || c == '\U{202F}' || c == '\U{205F}' || c == '\U{3000}'
  }

  function StripLeft(s: string): string {
    if s != [] && IsSpace(s[0]) then StripLeft(s[1..]) else s
  }

  function StripRight(s: string): string {
    if s != [] && IsSpace(s[|s| - 1]) then StripRight(s[..|s| - 1]) else s
  }

  function Strip(s: string): string {
    StripRight(StripLeft(s))
  }

  predicate Blank(s: string) {
    Strip(s) == []
  }

  lemma {:induction false} StripRightKeepsFirst(s: string)
    requires s != [] && !IsSpace(s[0])
    ensures StripRight(s) != []
  {
    if IsSpace(s[|s| - 1]) {
      StripRightKeepsFirst(s[..|s| - 1]);
    }
  }

  /** No white space at either end. */
  predicate Trimmed(s: string) {
    s != [] ==> !IsSpace(s[0]) && !IsSpace(s[|s| - 1])
  }

  lemma {:induction false} StripRightKeepsFront(s: string)
    ensures StripRight(s) <= s
    ensures StripRight(s) != [] ==> !IsSpace(StripRight(s)[|StripRight(s)| - 1])
  {
    if s != [] && IsSpace(s[|s| - 1]) {
      StripRightKeepsFront(s[..|s| - 1]);
    }
  }

  lemma {:induction false} StripLeftStarts(s: string)
    ensures StripLeft(s) != [] ==> !IsSpace(StripLeft(s)[0])
  {
    if s != [] && IsSpace(s[0]) {
      StripLeftStarts(s[1..]);
    }
  }

  lemma StripTrims(s: string)
    ensures Trimmed(Strip(s))
    ensures Trimmed(s) ==> Strip(s) == s
  {
    StripLeftStarts(s);
    StripRightKeepsFront(StripLeft(s));
  }

  predicate AllSpace(s: string) {
    forall k :: 0 <= k < |s| ==> IsSpace(s[k])
  }

  lemma {:induction false} StripLeftSplits(s: string) returns (front: string)
    ensures AllSpace(front) && s == front + StripLeft(s)
  {
    front := [];
    if s != [] && IsSpace(s[0]) {
      var rest := StripLeftSplits(s[1..]);
      front := [s[0]] + rest;
      assert s == [s[0]] + s[1..];
    }
  }

  lemma {:induction false} StripRightSplits(s: string) returns (back: string)
    ensures AllSpace(back) && s == StripRight(s) + back
  {
    back := [];
    if s != [] && IsSpace(s[|s| - 1]) {
      var rest := StripRightSplits(s[..|s| - 1]);
      back := rest + [s[|s| - 1]];
      assert s == s[..|s| - 1] + [s[|s| - 1]];
    }
  }

  /** Stripping takes white space off the two ends and nothing else. */
  lemma StripTakesOnlySpace(s: string)
    ensures exists front, back :: AllSpace(front) && AllSpace(back) && s == front + Strip(s) + back
    ensures Blank(s) <==> AllSpace(s)
  {
    var front := StripLeftSplits(s);
    var back := StripRightSplits(StripLeft(s));
    assert s == front + Strip(s) + back;
    StripTrims(s);
    if Strip(s) != [] {
      assert s[|front|] == Strip(s)[0];
    }
  }

  /** White space is what Python's strip takes: these 29 code points. */
  lemma SpacesAre(c: char)
    ensures
      var spaces := {9, 10, 11, 12, 13, 28, 29, 30, 31, 32, 133, 160, 5760, 8192, 8193, 8194, 8195, 8196, 8197, 8198,
                     8199, 8200, 8201, 8202, 8232, 8233, 8239, 8287, 12288};
      IsSpace(c) <==> c as int in spaces
  {
  }

  /** Letter case folding of a header name, which is ASCII. */
  function LowerChar(c: char): char {
    if 'A' <= c <= 'Z' then (c as int + 32) as char else c
  }

  function Lower(s: string): (r: string)
    ensures |r| == |s| && forall k :: 0 <= k < |r| ==> r[k] == LowerChar(s[k])
  {
    seq(|s|, k requires 0 <= k < |s| => LowerChar(s[k]))
  }

  /** Equal but for the case of ASCII letters. */
  predicate SameButCase(a: string, b: string) {
    && |a| == |b|
    && forall k :: 0 <= k < |a| ==>
         || a[k] == b[k]
         || ('A' <= a[k] <= 'Z' && b[k] as int == a[k] as int + 32)
         || ('A' <= b[k] <= 'Z' && a[k] as int == b[k] as int + 32)
  }

  /** Lowering identifies exactly the strings that differ in the case of ASCII letters only. */
  lemma LowerIdentifiesCase(a: string, b: string)
    ensures Lower(a) == Lower(b) <==> SameButCase(a, b)
  {
    if Lower(a) == Lower(b) {
      forall k | 0 <= k < |a|
        ensures a[k] == b[k] || ('A' <= a[k] <= 'Z' && b[k] as int == a[k] as int + 32)
                || ('A' <= b[k] <= 'Z' && a[k] as int == b[k] as int + 32)
      {
        assert Lower(a)[k] == Lower(b)[k];
      }
    }
  }

  // ----- comma-separated lists -------------------------------------------------

  /** The segments between commas; one more than there are commas. */
  function SplitComma(s: string): (segments: seq<string>)
    ensures segments != []
  {
    if s == [] then [[]]
    else
      var init := SplitComma(s[..|s| - 1]);
      var c := s[|s| - 1];
      if c == ',' then init + [[]] else init[..|init| - 1] + [init[|init| - 1] + [c]]
  }

  function JoinComma(tags: seq<string>): string {
    if tags == [] then []
    else if |tags| == 1 then tags[0]
    else JoinComma(tags[..|tags| - 1]) + "," + tags[|tags| - 1]
  }

  /** The non-blank segments, stripped. */
  function TagsIn(segments: seq<string>): set<string> {
    set t | t in segments && !Blank(t) :: Strip(t)
  }

  lemma {:induction false} SplitPlain(t: string)
    requires ',' !in t
    ensures SplitComma(t) == [t]
  {
    if t != [] {
      assert t == t[..|t| - 1] + [t[|t| - 1]];
      SplitPlain(t[..|t| - 1]);
    }
  }

  lemma {:induction false} SplitSnoc(s: string, t: string)
    requires ',' !in t
    ensures SplitComma(s + "," + t) == SplitComma(s) + [t]
  {
    var x := s + "," + t;
    if t == [] {
      assert x == s + ",";
      assert x[..|x| - 1] == s;
    } else {
      assert t == t[..|t| - 1] + [t[|t| - 1]];
      assert x[..|x| - 1] == s + "," + t[..|t| - 1];
      SplitSnoc(s, t[..|t| - 1]);
    }
  }

  lemma {:induction false} SplitUndoesJoin(tags: seq<string>)
    requires tags != [] && forall k :: 0 <= k < |tags| ==> ',' !in tags[k]
    ensures SplitComma(JoinComma(tags)) == tags
  {
    hide SplitComma;
    if |tags| == 1 {
      SplitPlain(tags[0]);
      assert tags == [tags[0]];
    } else {
      var init, last := tags[..|tags| - 1], tags[|tags| - 1];
      SplitUndoesJoin(init);
      assert JoinComma(tags) == JoinComma(init) + "," + last;
      hide JoinComma;
      SplitSnoc(JoinComma(init), last);
      assert tags == init + [last];
    }
  }

  lemma {:induction false} JoinStartsWithFirst(tags: seq<string>)
    requires tags != [] && tags[0] != []
    ensures JoinComma(tags) != [] && JoinComma(tags)[0] == tags[0][0]
  {
    if |tags| > 1 {
      JoinStartsWithFirst(tags[..|tags| - 1]);
    }
  }

  /** A joined list of trimmed, non-empty tags is not blank. */
  lemma JoinedIsNotBlank(tags: seq<string>)
    requires tags != [] && tags[0] != [] && Trimmed(tags[0])
    ensures !Blank(JoinComma(tags))
  {
    JoinStartsWithFirst(tags);
    hide JoinComma;
    StripRightKeepsFirst(JoinComma(tags));
  }

  /** Joining trimmed, non-empty, comma-free tags with commas and parsing the result gives the tags back. */
  lemma TagRoundTrip(tags: seq<string>)
    requires forall t :: t in tags ==> t != [] && Trimmed(t) && ',' !in t
    ensures TagsIn(SplitComma(JoinComma(tags))) == set t | t in tags
  {
    hide Strip, Trimmed;
    if tags == [] {
      SplitPlain([]);
      StripTrims([]);
      assert Blank([]) by {
        EmptyIsBlank();
      }
    } else {
      SplitUndoesJoin(tags);
      forall t | t in tags ensures Strip(t) == t {
        StripTrims(t);
      }
    }
  }

  lemma {:induction false} StripLeftKeepsComma(s: string)
    requires ',' in s
    ensures ',' in StripLeft(s)
  {
    if IsSpace(s[0]) {
      assert s == [s[0]] + s[1..];
      StripLeftKeepsComma(s[1..]);
    }
  }

  lemma {:induction false} StripRightKeepsComma(s: string)
    requires ',' in s
    ensures ',' in StripRight(s)
  {
    if IsSpace(s[|s| - 1]) {
      assert s == s[..|s| - 1] + [s[|s| - 1]];
      StripRightKeepsComma(s[..|s| - 1]);
    }
  }

  /** A blank string asks for no tags. */
  lemma BlankHasNoTags(s: string)
    requires Blank(s)
    ensures TagsIn(SplitComma(s)) == {}
  {
    if ',' in s {
      StripLeftKeepsComma(s);
      StripRightKeepsComma(StripLeft(s));
    } else {
      SplitPlain(s);
    }
  }

  lemma EmptyIsBlank()
    ensures Blank([])
  {
  }
}
