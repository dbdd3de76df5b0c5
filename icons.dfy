/**
 * The weather icon of a card: a case-sensitive substring test of the record's
 * condition against a fixed vocabulary, tried in a fixed order; the first word
 * found decides, and no word found gives the "unknown" icon.
 */
module Icons {

  /** The seven icons a card can show, one per vocabulary word plus "unknown". */
  datatype Icon = Sunny | Cloudy | Rainy | Stormy | Snowy | Windy | Unknown

  /** The word of the vocabulary that selects an icon. */
  function Keyword(i: Icon): string
    requires i != Unknown
  {
    match i
    case Sunny => "Sunny"
    case Cloudy => "Cloudy"
    case Rainy => "Rainy"
    case Stormy => "Stormy"
    case Snowy => "Snowy"
    case Windy => "Windy"
  }

  /** Position in the order the words are tried; "unknown" comes after all of them. */
  function Rank(i: Icon): nat {
    match i
    case Sunny => 0
    case Cloudy => 1
    case Rainy => 2
    case Stormy => 3
    case Snowy => 4
    case Windy => 5
    case Unknown => 6
  }

  /** `word` occurs in `text` starting at position `k`. */
  predicate OccursAt(text: string, word: string, k: nat) {
    k + |word| <= |text| && text[k..k + |word|] == word
  }

  /** `text.includes(word)`: `word` occurs in `text` at some position, case included. */
  predicate Contains(text: string, word: string)
    ensures Contains(text, word) ==> |word| <= |text|
    ensures word == [] ==> Contains(text, word)
  {
    assert word == [] ==> OccursAt(text, word, 0);
    exists k: nat | k <= |text| :: OccursAt(text, word, k)
  }

  /**
   * The icon chosen for a condition: the icon is one whose word occurs in the
   * condition, and no word tried before it occurs; with no word present the
   * result is `Unknown`.
   */
  function SelectIcon(condition: string): (r: Icon)
    ensures r != Unknown ==> Contains(condition, Keyword(r))
    ensures forall w :: w != Unknown && Rank(w) < Rank(r) ==> !Contains(condition, Keyword(w))
  {
    if Contains(condition, "Sunny") then Sunny
    else if Contains(condition, "Cloudy") then Cloudy
    else if Contains(condition, "Rainy") then Rainy
    else if Contains(condition, "Stormy") then Stormy
    else if Contains(condition, "Snowy") then Snowy
    else if Contains(condition, "Windy") then Windy
    else Unknown
  }

  /**
   * The two properties above determine the icon: an icon is the selected one
   * if and only if its word occurs (unless it is `Unknown`) and no earlier
   * word does.
   */
  lemma SelectIconCharacterized(condition: string, w: Icon)
    ensures SelectIcon(condition) == w <==>
      && (w != Unknown ==> Contains(condition, Keyword(w)))
      && (forall v :: v != Unknown && Rank(v) < Rank(w) ==> !Contains(condition, Keyword(v)))
  {
    var r := SelectIcon(condition);
    if (w != Unknown ==> Contains(condition, Keyword(w)))
      && (forall v :: v != Unknown && Rank(v) < Rank(w) ==> !Contains(condition, Keyword(v)))
    {
      if Rank(r) < Rank(w) {
        assert false;
      } else if Rank(w) < Rank(r) {
        assert false;
      }
    }
  }

  /** The vocabulary as a table of (word, icon) rows, in the order they are tried. */
  const Vocabulary: seq<(string, Icon)> := [
    ("Sunny", Sunny), ("Cloudy", Cloudy), ("Rainy", Rainy),
    ("Stormy", Stormy), ("Snowy", Snowy), ("Windy", Windy)
  ]

  /** Reference definition: walk a table, stop at the first row whose word occurs. */
  function FirstMatch(condition: string, table: seq<(string, Icon)>): Icon {
    if table == [] then Unknown
    else if Contains(condition, table[0].0) then table[0].1
    else FirstMatch(condition, table[1..])
  }

  /** The if-chain is the first match over the vocabulary table. */
  lemma SelectIconIsFirstMatch(condition: string)
    ensures SelectIcon(condition) == FirstMatch(condition, Vocabulary)
  {
    var c := condition;
    var t := Vocabulary;
    assert FirstMatch(c, t[5..]) == if Contains(c, "Windy") then Windy else Unknown by {
      assert t[5..][1..] == [];
    }
    assert FirstMatch(c, t[4..]) == if Contains(c, "Snowy") then Snowy else FirstMatch(c, t[5..]) by {
      assert t[4..][1..] == t[5..];
    }
    assert FirstMatch(c, t[3..]) == if Contains(c, "Stormy") then Stormy else FirstMatch(c, t[4..]) by {
      assert t[3..][1..] == t[4..];
    }
    assert FirstMatch(c, t[2..]) == if Contains(c, "Rainy") then Rainy else FirstMatch(c, t[3..]) by {
      assert t[2..][1..] == t[3..];
    }
    assert FirstMatch(c, t[1..]) == if Contains(c, "Cloudy") then Cloudy else FirstMatch(c, t[2..]) by {
      assert t[1..][1..] == t[2..];
    }
  }

  /** The bare word "Sunny" selects the sunny icon. */
  lemma SunnyWordExample()
    ensures SelectIcon("Sunny") == Sunny
  {
    var c := "Sunny";
    assert c[0..5] == c;
    assert OccursAt(c, "Sunny", 0);
  }

  /** Matching is case-sensitive: a lower-case "sunny" selects no icon. */
  lemma CaseSensitiveExample()
    ensures SelectIcon("sunny") == Unknown
  {
    var c := "sunny";
    assert c[0..5] == c;
    assert !OccursAt(c, "Sunny", 0) && !OccursAt(c, "Rainy", 0);
    assert !OccursAt(c, "Snowy", 0) && !OccursAt(c, "Windy", 0);
  }

  /** The first word tried wins even when a later word comes first in the text. */
  lemma FirstMatchWinsExample()
    ensures SelectIcon("Rainy, then Sunny") == Sunny
  {
    var c := "Rainy, then Sunny";
    assert c[12..17] == "Sunny";
    assert OccursAt(c, "Sunny", 12);
  }
}
