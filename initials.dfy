/** Avatar initials: split a name on spaces, take the first character of each word,
    upper-case and keep at most two characters. The member and project avatars, the
    member profile and the mention dropdown all compute initials this way. */
module Initials {
  import opened Common

  /** The first character of each word, joined; an empty word (two spaces in a row,
      or a space at either end) contributes nothing. */
  function Heads(words: seq<string>): (r: string)
    ensures |r| <= |words|
  {
    if words == [] then "" else (if words[0] == "" then "" else words[0][..1]) + Heads(words[1..])
  }

  /** The non-empty words, in order. */
  function NonEmpty(words: seq<string>): (r: seq<string>)
    ensures forall k :: 0 <= k < |r| ==> r[k] != "" && r[k] in words
  {
    if words == [] then []
    else
      var rest := NonEmpty(words[1..]);
      assert forall w :: w in words[1..] ==> w in words;
      if words[0] == "" then rest else [words[0]] + rest
  }

  /** The heads are the first characters of the non-empty words, one each, in order. */
  lemma {:induction false} HeadsAreFirstLetters(words: seq<string>)
    ensures var ne := NonEmpty(words);
      |Heads(words)| == |ne| && forall k :: 0 <= k < |ne| ==> Heads(words)[k] == ne[k][0]
  {
    if words != [] {
      HeadsAreFirstLetters(words[1..]);
      var ne := NonEmpty(words[1..]);
      var h := Heads(words[1..]);
      if words[0] != "" {
        assert Heads(words) == [words[0][0]] + h;
        assert NonEmpty(words) == [words[0]] + ne;
        forall k | 1 <= k < |ne| + 1 ensures Heads(words)[k] == NonEmpty(words)[k][0] {
          assert Heads(words)[k] == h[k - 1];
          assert NonEmpty(words)[k] == ne[k - 1];
        }
      } else {
        assert Heads(words) == "" + h;
      }
    }
  }

  /** `split(" ").map(first character).join("").toUpperCase().slice(0, 2)`. */
  function WordInitials(name: string): (r: string)
    ensures |r| <= 2
    ensures IsUpperCase(r)
  {
    var h := ToUpper(Heads(Split(name, ' ')));
    h[..Min(2, |h|)]
  }

  /** The initials are the upper-cased first characters of the first two non-empty
      space-separated words of the name, in order. */
  lemma WordInitialsLetters(name: string)
    ensures var words := NonEmpty(Split(name, ' '));
      var r := WordInitials(name);
      && |r| == Min(2, |words|)
      && forall k :: 0 <= k < |r| ==> r[k] == ToUpperChar(words[k][0])
  {
    var words := Split(name, ' ');
    HeadsAreFirstLetters(words);
    var h := Heads(words);
    var r := WordInitials(name);
    forall k | 0 <= k < |r| ensures r[k] == ToUpperChar(NonEmpty(words)[k][0]) {
      assert r[k] == ToUpper(h)[k];
    }
  }

  /** A single word gives its first character, upper-cased. */
  lemma SingleWordInitial(name: string)
    requires name != "" && ' ' !in name
    ensures WordInitials(name) == [ToUpperChar(name[0])]
  {
    assert Split(name, ' ') == [name];
    assert Heads([name]) == name[..1] + Heads([]);
  }

  /** The empty name has no initials. */
  lemma EmptyNameInitials()
    ensures WordInitials("") == ""
  {
    assert Split("", ' ') == [""];
    assert Heads([""]) == "" + Heads([]);
  }
}
