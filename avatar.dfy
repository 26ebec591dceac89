/** The navigation bar's avatar in `avatar.js`: the initials shown for the user's full name. */
module Avatar {
  import opened Common
  import opened Text

  /** The `TypeError` raised by `part[0].toUpperCase()` on an empty part. */
  const UndefinedFirstLetter := "TypeError: cannot read properties of undefined"

  predicate HasEmptyPart(parts: seq<string>)
  {
    exists i :: 0 <= i < |parts| && parts[i] == []
  }

  /** The upper-cased first letter of each part. */
  function Firsts(parts: seq<string>): (r: string)
    requires forall i :: 0 <= i < |parts| ==> parts[i] != []
    ensures |r| == |parts|
    ensures forall i :: 0 <= i < |parts| ==> r[i] == UpperChar(parts[i][0])
  {
    seq(|parts|, i requires 0 <= i < |parts| => UpperChar(parts[i][0]))
  }

  /** `getInitials`: an absent or empty name gives `''`; otherwise the name is split at every
      space and each part contributes its first letter, upper-cased. A part left empty by a
      leading, trailing or doubled space has no first letter, and the call throws. */
  function Initials(name: Option<string>): (r: Result<string, string>)
    ensures name.None? || name.value == "" ==> r == Success("")
    ensures name.Some? && name.value != "" ==>
      (r.Failure? <==> HasEmptyPart(Split(name.value, ' ')))
    ensures name.Some? && name.value != "" && r.Success? ==>
      && |r.value| == |Split(name.value, ' ')|
      && forall i :: 0 <= i < |r.value| ==> r.value[i] == UpperChar(Split(name.value, ' ')[i][0])
  {
    if name.None? || name.value == "" then Success("")
    else
      var parts := Split(name.value, ' ');
      if HasEmptyPart(parts) then Failure(UndefinedFirstLetter)
      else Success(Firsts(parts))
  }

  /** The initials of a name made of non-empty words joined by single spaces are the words'
      upper-cased first letters, one per word, in order. */
  lemma InitialsOfWords(words: seq<string>)
    requires |words| >= 1
    requires forall i :: 0 <= i < |words| ==> words[i] != [] && ' ' !in words[i]
    ensures Initials(Some(Join(words, ' '))) == Success(Firsts(words))
  {
    var name := Join(words, ' ');
    SplitJoin(words, ' ');
    assert Split(name, ' ') == words;
    assert Split("", ' ') == [[]];
    assert words[0] != [];
    assert name != "";
    assert !HasEmptyPart(words);
  }

  /** A name starting with a space throws. */
  lemma LeadingSpaceThrows(rest: string)
    ensures Initials(Some([' '] + rest)).Failure?
  {
    var name := [' '] + rest;
    assert name[1..] == rest;
    assert Split(name, ' ')[0] == [];
    assert HasEmptyPart(Split(name, ' '));
  }
}
