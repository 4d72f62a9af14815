/** The comma-separated list parser of the configuration. */
module SplitList {

  /** The white space that strings.TrimSpace removes (the characters of the Unicode property White_Space). */
  predicate IsSpace(c: char) {
    c in {'\t', '\n', '\U{0B}', '\U{0C}', '\r', ' ', '\U{85}', '\U{A0}', '\U{1680}',
          '\U{2000}', '\U{2001}', '\U{2002}', '\U{2003}', '\U{2004}', '\U{2005}', '\U{2006}', '\U{2007}', '\U{2008}',
          '\U{2009}', '\U{200A}', '\U{2028}', '\U{2029}', '\U{202F}', '\U{205F}', '\U{3000}'}
  }

  function TrimLeft(s: string): string {
    if s != "" && IsSpace(s[0]) then TrimLeft(s[1..]) else s
  }

  function TrimRight(s: string): string {
    if s != "" && IsSpace(s[|s| - 1]) then TrimRight(s[..|s| - 1]) else s
  }

  function TrimSpace(s: string): string {
    TrimRight(TrimLeft(s))
  }

  /** The pieces between commas; always at least one. */
  function Split(s: string): (parts: seq<string>)
    ensures parts != []
  {
    if s == "" then [""]
    else
      var rest := Split(s[1..]);
      if s[0] == ',' then [""] + rest else [[s[0]] + rest[0]] + rest[1..]
  }

  function Join(parts: seq<string>): string {
    if parts == [] then ""
    else if |parts| == 1 then parts[0]
    else parts[0] + "," + Join(parts[1..])
  }

  function Kept(parts: seq<string>): seq<string> {
    if parts == [] then []
    else
      var part := TrimSpace(parts[0]);
      (if part == "" then [] else [part]) + Kept(parts[1..])
  }

  method ParseList(value: string) returns (result: seq<string>)
    ensures result == Kept(Split(value))
  {
    var parts := Split(value);
    result := [];
    for i := 0 to |parts|
      invariant result + Kept(parts[i..]) == Kept(parts)
    {
      var part := TrimSpace(parts[i]);
      assert parts[i..][1..] == parts[i + 1..];
      if part == "" {
        continue;
      }
      result := result + [part];
    }
  }

  predicate NoComma(s: string) {
    forall i :: 0 <= i < |s| ==> s[i] != ','
  }

  /** What the parser lets through: not empty, no white space at either end, no comma. */
  predicate Clean(s: string) {
    s != "" && !IsSpace(s[0]) && !IsSpace(s[|s| - 1]) && NoComma(s)
  }

  lemma {:induction false} SplitHasNoComma(s: string)
    ensures forall i :: 0 <= i < |Split(s)| ==> NoComma(Split(s)[i])
  {
    if s != "" {
      SplitHasNoComma(s[1..]);
    }
  }

  lemma {:induction false} TrimLeftKeeps(s: string)
    requires NoComma(s)
    ensures NoComma(TrimLeft(s)) && (TrimLeft(s) != "" ==> !IsSpace(TrimLeft(s)[0]))
  {
    if s != "" && IsSpace(s[0]) {
      TrimLeftKeeps(s[1..]);
    }
  }

  lemma {:induction false} TrimRightKeeps(s: string)
    requires NoComma(s)
    ensures NoComma(TrimRight(s)) && (TrimRight(s) != "" ==> !IsSpace(TrimRight(s)[|TrimRight(s)| - 1]))
    ensures TrimRight(s) != "" ==> s != "" && TrimRight(s)[0] == s[0]
  {
    if s != "" && IsSpace(s[|s| - 1]) {
      TrimRightKeeps(s[..|s| - 1]);
    }
  }

  lemma TrimSpaceCleans(s: string)
    requires NoComma(s)
    ensures TrimSpace(s) == "" || Clean(TrimSpace(s))
  {
    TrimLeftKeeps(s);
    TrimRightKeeps(TrimLeft(s));
  }

  lemma {:induction false} KeptAreClean(parts: seq<string>)
    requires forall i :: 0 <= i < |parts| ==> NoComma(parts[i])
    ensures forall i :: 0 <= i < |Kept(parts)| ==> Clean(Kept(parts)[i])
  {
    if parts != [] {
      KeptAreClean(parts[1..]);
      TrimSpaceCleans(parts[0]);
    }
  }

  lemma {:induction false} SplitNoComma(s: string)
    requires NoComma(s)
    ensures Split(s) == [s]
  {
    if s != "" {
      SplitNoComma(s[1..]);
      assert [s[0]] + s[1..] == s;
    }
  }

  lemma {:induction false} SplitAtComma(head: string, tail: string)
    requires NoComma(head)
    ensures Split(head + "," + tail) == [head] + Split(tail)
  {
    var s := head + "," + tail;
    if head == "" {
      assert s[1..] == tail;
    } else {
      SplitAtComma(head[1..], tail);
      assert s[1..] == head[1..] + "," + tail;
      assert [s[0]] + head[1..] == head;
    }
  }

  lemma {:induction false} SplitJoin(parts: seq<string>)
    requires parts != [] && forall i :: 0 <= i < |parts| ==> NoComma(parts[i])
    ensures Split(Join(parts)) == parts
  {
    if |parts| == 1 {
      SplitNoComma(parts[0]);
    } else {
      SplitJoin(parts[1..]);
      SplitAtComma(parts[0], Join(parts[1..]));
    }
  }

  lemma {:induction false} KeptOfClean(parts: seq<string>)
    requires forall i :: 0 <= i < |parts| ==> Clean(parts[i])
    ensures Kept(parts) == parts
  {
    if parts != [] {
      KeptOfClean(parts[1..]);
    }
  }

  /** For every input, the entries are clean, and parsing their comma-join gives the same list back. */
  lemma ParseRoundTrip(value: string)
    ensures forall i :: 0 <= i < |Kept(Split(value))| ==> Clean(Kept(Split(value))[i])
    ensures Kept(Split(Join(Kept(Split(value))))) == Kept(Split(value))
  {
    SplitHasNoComma(value);
    KeptAreClean(Split(value));
    var result := Kept(Split(value));
    if result == [] {
      assert Split("") == [""];
      assert Kept([""]) == Kept([""][1..]);
    } else {
      SplitJoin(result);
      KeptOfClean(result);
    }
  }

  /** Every list of clean entries is the parse of its join: the parser can represent all of them, and nothing else. */
  lemma EveryCleanList(list: seq<string>)
    ensures (forall i :: 0 <= i < |list| ==> Clean(list[i])) <==> exists value :: Kept(Split(value)) == list
  {
    if forall i :: 0 <= i < |list| ==> Clean(list[i]) {
      if list == [] {
        assert Kept(Split("")) == list by { assert Kept([""]) == Kept([""][1..]); }
      } else {
        SplitJoin(list);
        KeptOfClean(list);
        assert Kept(Split(Join(list))) == list;
      }
    }
    if value :| Kept(Split(value)) == list {
      ParseRoundTrip(value);
    }
  }

  predicate Blank(s: string) {
    forall i :: 0 <= i < |s| ==> IsSpace(s[i])
  }

  lemma {:induction false} TrimLeftOf(left: string, s: string)
    requires Blank(left) && (s != "" ==> !IsSpace(s[0]))
    ensures TrimLeft(left + s) == s
  {
    if left == "" {
      assert left + s == s;
    } else {
      TrimLeftOf(left[1..], s);
      assert (left + s)[1..] == left[1..] + s;
    }
  }

  lemma {:induction false} TrimRightOf(s: string, right: string)
    requires Blank(right) && (s != "" ==> !IsSpace(s[|s| - 1]))
    ensures TrimRight(s + right) == s
  {
    if right == "" {
      assert s + right == s;
    } else {
      var most := right[..|right| - 1];
      TrimRightOf(s, most);
      assert (s + right)[..|s + right| - 1] == s + most;
    }
  }

  /** White space around a clean entry, or around nothing, is removed, and nothing else. */
  lemma TrimSpaceOf(left: string, s: string, right: string)
    requires Blank(left) && Blank(right) && (s == "" || Clean(s))
    ensures TrimSpace(left + s + right) == s
  {
    if s == "" {
      TrimLeftOf(left + right, "");
      assert left + s + right == left + right + "";
      assert TrimRight("") == "";
    } else {
      TrimLeftOf(left, s + right);
      assert left + s + right == left + (s + right);
      TrimRightOf(s, right);
    }
  }

  /** The entries that are not empty. */
  function NonEmpty(list: seq<string>): seq<string> {
    if list == [] then [] else (if list[0] == "" then [] else [list[0]]) + NonEmpty(list[1..])
  }

  /** The piece is this entry with white space around it. */
  ghost predicate Pads(piece: string, s: string) {
    exists left, right :: Blank(left) && Blank(right) && piece == left + s + right
  }

  lemma {:induction false} KeptOfPadded(pieces: seq<string>, list: seq<string>)
    requires |pieces| == |list|
    requires forall i :: 0 <= i < |list| ==> (list[i] == "" || Clean(list[i])) && Pads(pieces[i], list[i])
    ensures Kept(pieces) == NonEmpty(list)
  {
    if list != [] {
      var left, right :| Blank(left) && Blank(right) && pieces[0] == left + list[0] + right;
      TrimSpaceOf(left, list[0], right);
      KeptOfPadded(pieces[1..], list[1..]);
    }
  }

  lemma PaddedHasNoComma(piece: string, s: string)
    requires Pads(piece, s) && (s == "" || Clean(s))
    ensures NoComma(piece)
  {
  }

  /** What a person may write: entries with white space around them and blanks between the commas parse to the entries
      without the white space and without the blanks. */
  lemma ParseTrims(pieces: seq<string>, list: seq<string>)
    requires |pieces| == |list| > 0
    requires forall i :: 0 <= i < |list| ==> (list[i] == "" || Clean(list[i])) && Pads(pieces[i], list[i])
    ensures Kept(Split(Join(pieces))) == NonEmpty(list)
  {
    forall i | 0 <= i < |pieces| ensures NoComma(pieces[i]) {
      PaddedHasNoComma(pieces[i], list[i]);
    }
    SplitJoin(pieces);
    KeptOfPadded(pieces, list);
  }

  /** The characters that count as white space, among those of ASCII and Latin-1. */
  lemma SpacesAre(c: char)
    requires c <= '\U{FF}'
    ensures IsSpace(c) <==> c == ' ' || '\t' <= c <= '\r' || c == '\U{85}' || c == '\U{A0}'
  {
  }
}
