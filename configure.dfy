/** The key and value transformers of `configure` (main.go:102-123), applied
    to every `CRUSH_`-prefixed environment variable before it is stored in the
    configuration under a dotted key. */
module Configure {
  import opened GoStrings
  import Keywords
  import opened Wrappers

  /** `envPrefix` (main.go:18). */
  const EnvPrefix: string := "CRUSH_"

  /** A stored configuration value: either the raw text or, for text with
      spaces, the list of its space-separated pieces. */
  datatype Value = Text(text: string) | List(items: seq<string>)

  /** The character a key character becomes: ASCII letters lower-cased and
      `_` turned into the key-path delimiter `.`. */
  function KeyChar(c: char): char {
    if c == '_' then '.' else LowerChar(c)
  }

  /** `keyTransformer`: trim one leading `CRUSH_`, lower-case, and replace
      every `_` by `.`. */
  function KeyTransform(key: string): (k: string)
    ensures var n := if HasPrefix(key, EnvPrefix) then |EnvPrefix| else 0;
      |k| == |key| - n && forall i :: 0 <= i < |k| ==> k[i] == KeyChar(key[n + i])
    ensures '_' !in k
    ensures forall i :: 0 <= i < |k| ==> !IsUpper(k[i])
  {
    KeyCharacters(key);
    ReplaceAll(ToLower(TrimPrefix(key, EnvPrefix)), '_', '.')
  }

  /** The character-by-character reading of the three steps of `keyTransformer`. */
  lemma KeyCharacters(key: string)
    ensures var n := if HasPrefix(key, EnvPrefix) then |EnvPrefix| else 0;
      var k := ReplaceAll(ToLower(TrimPrefix(key, EnvPrefix)), '_', '.');
      |k| == |key| - n && forall i :: 0 <= i < |k| ==> k[i] == KeyChar(key[n + i])
  {
    var n := if HasPrefix(key, EnvPrefix) then |EnvPrefix| else 0;
    var trimmed := TrimPrefix(key, EnvPrefix);
    if HasPrefix(key, EnvPrefix) {
      assert trimmed == key[n..];
    } else {
      assert trimmed == key;
    }
    var lowered := ToLower(trimmed);
    var k := ReplaceAll(lowered, '_', '.');
    assert |k| == |trimmed|;
    forall i | 0 <= i < |k|
      ensures k[i] == KeyChar(key[n + i])
    {
      var c := trimmed[i];
      assert c == key[n + i];
      if IsUpper(c) {
        assert lowered[i] == LowerChar(c) != '_';
      } else {
        assert lowered[i] == c;
      }
    }
  }

  /** A transformed key is a fixed point of the transformer: it has no `_`,
      hence no `CRUSH_` prefix, and nothing left to lower-case. */
  lemma KeyTransformIdempotent(key: string)
    ensures KeyTransform(KeyTransform(key)) == KeyTransform(key)
  {
    var k := KeyTransform(key);
    assert !HasPrefix(k, EnvPrefix) by {
      if |EnvPrefix| <= |k| {
        assert k[..|EnvPrefix|][5] == k[5] != '_' == EnvPrefix[5];
      }
    }
    assert TrimPrefix(k, EnvPrefix) == k;
    assert ToLower(k) == k;
    assert ReplaceAll(k, '_', '.') == k;
  }

  /** A key that carries the prefix loses exactly that prefix; the rest is
      transformed character by character. */
  lemma PrefixedKeyChars(rest: string)
    ensures var k := KeyTransform(EnvPrefix + rest);
      |k| == |rest| && forall i :: 0 <= i < |rest| ==> k[i] == KeyChar(rest[i])
  {
    var key := EnvPrefix + rest;
    assert key[..|EnvPrefix|] == EnvPrefix;
    assert forall i :: 0 <= i < |rest| ==> key[|EnvPrefix| + i] == rest[i];
  }

  /** Reads off the transformed key of a prefixed variable from the
      transform of each character of its remainder. */
  lemma PrefixedKey(rest: string, expected: string)
    requires |expected| == |rest|
    requires forall i :: 0 <= i < |rest| ==> expected[i] == KeyChar(rest[i])
    ensures KeyTransform(EnvPrefix + rest) == expected
  {
    PrefixedKeyChars(rest);
  }

  /** The variable that sets the keywords (main.go:86) maps to `alt.keywords`. */
  lemma KeywordsKeyExample()
    ensures KeyTransform("CRUSH_ALT_KEYWORDS") == "alt.keywords"
  {
    assert "CRUSH_ALT_KEYWORDS" == EnvPrefix + "ALT_KEYWORDS";
    PrefixedKey("ALT_KEYWORDS", "alt.keywords");
  }

  /** The variable that sets the chat ID (main.go:44) maps to `chat.id`. */
  lemma ChatIdKeyExample()
    ensures KeyTransform("CRUSH_CHAT_ID") == "chat.id"
  {
    assert "CRUSH_CHAT_ID" == EnvPrefix + "CHAT_ID";
    PrefixedKey("CHAT_ID", "chat.id");
  }

  /** The prefix is trimmed once only. */
  lemma DoublePrefixExample()
    ensures KeyTransform("CRUSH_CRUSH_TOKEN") == "crush.token"
  {
    assert "CRUSH_CRUSH_TOKEN" == EnvPrefix + "CRUSH_TOKEN";
    PrefixedKey("CRUSH_TOKEN", "crush.token");
  }

  /** The value half of the env `TransformFunc`: text containing a space
      becomes the list of its space-separated pieces, anything else stays text. */
  function TransformValue(v: string): (r: Value)
    ensures ' ' in v ==> r.List? && |r.items| >= 2 && Join(r.items, ' ') == v
    ensures ' ' in v ==> forall i :: 0 <= i < |r.items| ==> ' ' !in r.items[i]
    ensures ' ' !in v ==> r == Text(v)
  {
    if ' ' in v then
      JoinSplit(v, ' ');
      List(Split(v, ' '))
    else
      Text(v)
  }

  /** A value with a space is stored as the list of its words. */
  lemma ValueWithSpaceExample()
    ensures TransformValue("foo bar") == List(["foo", "bar"])
  {
    var words := ["foo", "bar"];
    assert Join(words[1..], ' ') == "bar";
    assert Join(words, ' ') == "foo bar";
    SplitJoin(words, ' ');
    assert ' ' == "foo bar"[3];
  }

  /** A value without a space is stored as it is. */
  lemma ValueWithoutSpaceExample()
    ensures TransformValue("foo") == Text("foo")
  {
    assert ' ' !in "foo";
  }

  /** The text a stored value stands for. */
  function Flatten(v: Value): string {
    match v
    case Text(s) => s
    case List(items) => Join(items, ' ')
  }

  /** The env `TransformFunc` (main.go:109-122): the dotted key and the
      stored value for one environment variable. */
  function EnvTransform(key: string, v: string): (r: (string, Value))
    ensures r.0 == KeyTransform(key)
    ensures Flatten(r.1) == v
    ensures r.1.List? <==> ' ' in v
  {
    (KeyTransform(key), TransformValue(v))
  }

  /** The value transform loses nothing: flattening the stored value and
      transforming again gives the same stored value. */
  lemma {:induction false} TransformValueRoundTrip(v: Value)
    requires v.Text? ==> ' ' !in v.text
    requires v.List? ==> |v.items| >= 2 && forall i :: 0 <= i < |v.items| ==> ' ' !in v.items[i]
    ensures TransformValue(Flatten(v)) == v
  {
    if v.List? {
      var s := Flatten(v);
      assert ' ' in s by {
        assert s == v.items[0] + [' '] + Join(v.items[1..], ' ');
        assert s[|v.items[0]|] == ' ';
      }
      SplitJoin(v.items, ' ');
    }
  }

  /** `config.Strings`, the list view of a stored value, as the configuration
      library provides it: the list itself, or empty for text and for an
      unset key. */
  function ListView(stored: Option<Value>): (list: seq<string>)
    ensures |list| > 0 ==> stored == Some(List(list))
    ensures stored.Some? && stored.value.List? ==> list == stored.value.items
  {
    match stored
    case Some(List(items)) => items
    case _ => []
  }

  /** `config.String`, the text view of a stored value: the text itself, ""
      for an unset key, and the `%v` rendering for a list. */
  function TextView(stored: Option<Value>): (text: string)
    ensures stored.None? ==> text == ""
    ensures stored.Some? && stored.value.Text? ==> text == stored.value.text
    ensures stored.Some? && stored.value.List? ==>
      |text| >= 2 && text[0] == '[' && text[|text| - 1] == ']' && text[1..|text| - 1] == Join(stored.value.items, ' ')
  {
    match stored
    case None => ""
    case Some(Text(s)) => s
    case Some(List(items)) => "[" + Join(items, ' ') + "]"
  }

  /** Whatever form the value transform gives `CRUSH_ALT_KEYWORDS`, the
      keywords `forgotten` scans are that variable's text split on spaces;
      an unset variable gives the single empty keyword. */
  lemma StoredKeywords(v: string)
    ensures Keywords.Keywords(ListView(Some(TransformValue(v))), TextView(Some(TransformValue(v)))) == Split(v, ' ')
    ensures Keywords.Keywords(ListView(None), TextView(None)) == [""]
  {
  }
}
