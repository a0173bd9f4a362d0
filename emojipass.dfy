/** trans2Emoji (gitlab.go:85-90): one ReplaceAll per map entry over the
    outgoing message, in the order Go ranges over the map. */
module EmojiPass {
  import opened Strings
  import opened Gitmoji
  import opened GitEmojiMap

  /** trans2Emoji: the loop that reassigns `content` once per map entry. */
  method Trans2Emoji(order: seq<Entry>, content: string) returns (r: string)
    requires IsMapOrder(order)
    ensures r == Substitute(order, content)
    ensures forall e | e in GitEmojiTable :: !Contains(r, Key(e))
    ensures r == content <==> forall e | e in GitEmojiTable :: !Contains(content, Key(e))
  {
    r := content;
    for i := 0 to |order|
      invariant Substitute(order, content) == Substitute(order[i..], r)
    {
      assert order[i..][1..] == order[i + 1..];
      r := ReplaceAll(r, Key(order[i]), order[i].emoji);
    }
    assert order[|order|..] == [];
    MapOrderWellFormed(order);
    SubstituteRemovesKeys(order, content);
    SubstituteUnchanged(order, content);
  }
}
