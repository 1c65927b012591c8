/** The keyword predicate `forgotten` (main.go:85-100): does some
    space-separated word of a message start with one of the configured
    keywords? The configuration is passed in as its two views of
    `alt.keywords`: the list view (`config.Strings`) and the text view
    (`config.String`). */
module Keywords {
  import opened GoStrings

  /** The keywords `forgotten` scans: the list view when it is non-empty,
      otherwise the text view split on single spaces. */
  function Keywords(list: seq<string>, text: string): (keywords: seq<string>)
    ensures |list| > 0 ==> keywords == list
    ensures |list| == 0 ==> |keywords| >= 1 && Join(keywords, ' ') == text
    ensures |list| == 0 ==> forall j :: 0 <= j < |keywords| ==> ' ' !in keywords[j]
  {
    if |list| == 0 then
      JoinSplit(text, ' ');
      Split(text, ' ')
    else
      list
  }

  /** Some word of `message` (split on single spaces) begins with some keyword. */
  ghost predicate MentionsAny(message: string, keywords: seq<string>) {
    var words := Split(message, ' ');
    exists i, j :: 0 <= i < |words| && 0 <= j < |keywords| && HasPrefix(words[i], keywords[j])
  }

  /** The specification of `forgotten`. */
  ghost predicate IsForgotten(message: string, list: seq<string>, text: string) {
    MentionsAny(message, Keywords(list, text))
  }

  /** `forgotten`: scan the words of the message in order and, for each, the
      keywords in order, stopping at the first keyword that begins the word. */
  method Forgotten(message: string, list: seq<string>, text: string) returns (found: bool)
    ensures found <==> IsForgotten(message, list, text)
  {
    var keywords := list;
    if |keywords| == 0 {
      keywords := Split(text, ' ');
    }
    var words := Split(message, ' ');
    for i := 0 to |words|
      invariant forall i', j :: 0 <= i' < i && 0 <= j < |keywords| ==> !HasPrefix(words[i'], keywords[j])
    {
      for j := 0 to |keywords|
        invariant forall j' :: 0 <= j' < j ==> !HasPrefix(words[i], keywords[j'])
      {
        if HasPrefix(words[i], keywords[j]) {
          return true;
        }
      }
    }
    return false;
  }

  /** With `alt.keywords` unset or empty both views are empty, the keywords
      are the single empty string, and every message counts as a match. */
  lemma UnsetKeywordsMatchEverything(message: string)
    ensures IsForgotten(message, [], "")
  {
    var words := Split(message, ' ');
    assert Keywords([], "") == [""];
    assert HasPrefix(words[0], "");
  }

  /** For a message assembled from space-free words, the predicate holds
      exactly when one of those words begins with one of the keywords. */
  lemma {:induction false} MentionsJoined(words: seq<string>, keywords: seq<string>)
    requires |words| >= 1 && forall k :: 0 <= k < |words| ==> ' ' !in words[k]
    ensures MentionsAny(Join(words, ' '), keywords) <==>
      exists i, j :: 0 <= i < |words| && 0 <= j < |keywords| && HasPrefix(words[i], keywords[j])
  {
    SplitJoin(words, ' ');
  }

  /** A word beginning with a keyword makes the message match. */
  lemma ExampleMatch()
    ensures IsForgotten("i totally forgot", ["forgo", "skip"], "")
  {
    var words := ["i", "totally", "forgot"];
    assert Join(words[2..], ' ') == "forgot";
    assert Join(words[1..], ' ') == "totally forgot";
    assert Join(words, ' ') == "i totally forgot";
    var keywords := ["forgo", "skip"];
    assert words[2][..5] == keywords[0];
    MentionsJoined(words, keywords);
    assert MentionsAny(Join(words, ' '), keywords);
  }

  /** No word beginning with a keyword: no match. */
  lemma ExampleNoMatch()
    ensures !IsForgotten("remembered everything", ["forgo"], "")
  {
    var words := ["remembered", "everything"];
    var keywords := ["forgo"];
    assert Join(words[1..], ' ') == "everything";
    assert Join(words, ' ') == "remembered everything";
    forall i, j | 0 <= i < |words| && 0 <= j < |keywords|
      ensures !HasPrefix(words[i], keywords[j])
    {
      assert words[i][..5][0] != 'f';
    }
    MentionsJoined(words, keywords);
    assert Keywords(keywords, "") == keywords;
  }
}
