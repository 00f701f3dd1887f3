/** The avatar fallback of the user menu: the initials of the profile's full name. */
module UserMenu {
  import opened Wrappers
  import Text
  import Seqs

  /** `n[0]` of one piece; the first character of an empty piece is `undefined`, which `join("")` writes as "". */
  function FirstChar(piece: string): string
  {
    if piece == [] then "" else [piece[0]]
  }

  /** A piece that has a first character. */
  predicate NonEmptyPiece(piece: string)
  {
    piece != ""
  }

  /**
   * `pieces.map((n) => n[0]).join("")`: the first character of every non-empty
   * piece, in order; empty pieces contribute nothing.
   */
  function FirstChars(pieces: seq<string>): (r: string)
    ensures |r| <= |pieces|
    ensures var words := Seqs.Filter(pieces, NonEmptyPiece);
      |r| == |words| && forall i :: 0 <= i < |words| ==> r[i] == words[i][0]
  {
    if pieces == [] then ""
    else
      var words := Seqs.Filter(pieces[1..], NonEmptyPiece);
      assert Seqs.Filter(pieces, NonEmptyPiece) == (if pieces[0] != "" then [pieces[0]] else []) + words;
      FirstChar(pieces[0]) + FirstChars(pieces[1..])
  }

  /**
   * `getInitials(name)`: the upper-cased first character of each non-empty
   * space-separated piece, so that runs of spaces contribute nothing.
   */
  function Initials(name: string): (r: string)
    ensures |r| <= Text.Occurrences(name, ' ') + 1
    ensures var words := Seqs.Filter(Text.Split(name, ' '), NonEmptyPiece);
      |r| == |words| && forall i :: 0 <= i < |words| ==> r[i] == Text.UpperChar(words[i][0])
  {
    Text.SplitCount(name, ' ');
    Text.Upper(FirstChars(Text.Split(name, ' ')))
  }

  /** A leading space adds an empty piece, which gives no initial. */
  lemma LeadingSpaceIgnored(name: string)
    ensures Initials(" " + name) == Initials(name)
  {
    assert (" " + name)[1..] == name;
    assert Text.Split(" " + name, ' ') == [""] + Text.Split(name, ' ');
    assert ([""] + Text.Split(name, ' '))[1..] == Text.Split(name, ' ');
  }

  /** Two spaces between words give the initials of one space. */
  lemma DoubledSpaceIgnored(word: string, rest: string)
    requires ' ' !in word
    ensures Initials(word + "  " + rest) == Initials(word + " " + rest)
  {
    Text.SplitAfterPiece(word, " " + rest, ' ');
    Text.SplitAfterPiece(word, rest, ' ');
    assert word + "  " + rest == word + [' '] + (" " + rest);
    assert word + " " + rest == word + [' '] + rest;
    assert (" " + rest)[1..] == rest;
    var tail := Text.Split(rest, ' ');
    assert Text.Split(" " + rest, ' ') == [""] + tail;
    assert ([word] + ([""] + tail))[1..] == [""] + tail;
    assert ([word] + tail)[1..] == tail;
    assert ([""] + tail)[1..] == tail;
  }

  /** A name of words separated by single spaces gets one initial per word. */
  lemma InitialsOfWords(words: seq<string>)
    requires |words| >= 1
    requires forall i :: 0 <= i < |words| ==> words[i] != "" && ' ' !in words[i]
    ensures var r := Initials(Text.Join(words, ' '));
      |r| == |words| && forall i :: 0 <= i < |words| ==> r[i] == Text.UpperChar(words[i][0])
  {
    Text.JoinSplit(words, ' ');
    Seqs.FilterAll(words, NonEmptyPiece);
  }

  /** `profile?.full_name ? getInitials(profile.full_name) : "U"`. */
  function AvatarFallback(fullName: Option<string>): (r: string)
    ensures fullName.None? || fullName.value == "" ==> r == "U"
    ensures fullName.Some? && fullName.value != "" ==> r == Initials(fullName.value)
  {
    if fullName.Some? && fullName.value != "" then Initials(fullName.value) else "U"
  }

  /** A full name of spaces only is truthy, so it gets no "U" and no initials: the fallback is blank. */
  lemma BlankNameFallback()
    ensures AvatarFallback(Some(" ")) == ""
  {
    assert " "[1..] == "";
    assert Text.Split("", ' ') == [""];
    assert Text.Split(" ", ' ') == ["", ""];
    assert FirstChars(["", ""]) == "";
  }
}
