/** Text helpers shared by the parsers: Unicode trimming and cutting at a separator. */
module Text {

  /** Unicode White_Space. */
  predicate IsSpace(c: char) {
    || '\U{9}' <= c <= '\U{d}' || c == ' ' || c == '\U{85}' || c == '\U{a0}' || c == '\U{1680}'
    || '\U{2000}' <= c <= '\U{200a}' || c == '\U{2028}' || c == '\U{2029}' || c == '\U{202f}'
    || c == '\U{205f}' || c == '\U{3000}'
  }

  function TrimStart(s: string): string {
    if s != [] && IsSpace(s[0]) then TrimStart(s[1..]) else s
  }

  function TrimEnd(s: string): string {
    if s != [] && IsSpace(s[|s| - 1]) then TrimEnd(s[..|s| - 1]) else s
  }

  function Trim(s: string): string {
    TrimEnd(TrimStart(s))
  }

  function Split(s: string, at: char): (parts: seq<string>)
    ensures parts != []
  {
    if s == [] then [[]]
    else if s[0] == at then [[]] + Split(s[1..], at)
    else
      var parts := Split(s[1..], at);
      [[s[0]] + parts[0]] + parts[1..]
  }

  ghost predicate Blank(s: string) {
    forall c :: c in s ==> IsSpace(c)
  }

  /** Trimming takes the white space around a text and nothing of the text. */
  lemma TrimPads(front: string, s: string, back: string)
    requires Blank(front) && Blank(back) && s != [] && !IsSpace(s[0]) && !IsSpace(s[|s| - 1])
    ensures Trim(front + s + back) == s
  {
    TrimFront(front, s + back);
    assert front + s + back == front + (s + back);
    TrimBack(s, back);
  }

  lemma {:induction false} TrimFront(front: string, s: string)
    requires Blank(front) && s != [] && !IsSpace(s[0])
    ensures TrimStart(front + s) == s
  {
    if front == [] {
      assert front + s == s;
    } else {
      assert front[0] in front && (front + s)[1..] == front[1..] + s;
      TrimFront(front[1..], s);
    }
  }

  lemma {:induction false} TrimBack(s: string, back: string)
    requires Blank(back) && s != [] && !IsSpace(s[|s| - 1])
    ensures TrimEnd(s + back) == s
  {
    if back == [] {
      assert s + back == s;
    } else {
      assert back[|back| - 1] in back && (s + back)[..|s + back| - 1] == s + back[..|back| - 1];
      TrimBack(s, back[..|back| - 1]);
    }
  }
}
