/** GitEmojiMap (gitlab.go:15-83): the table of shortcodes the handler
    replaces, and the orders in which Go may range over it. */
module GitEmojiMap {
  import opened Gitmoji

  /** GitEmojiMap, in the order the source lists it, written in blocks of eight
      rows so that each block is checked on its own. The values are the Gitmoji
      emoji; the laws below use only that each is non-empty, has fewer
      characters (code points) than its key, and is free of ':' and of name
      characters. */
  const GitEmojiTable: seq<Entry> :=
    Block0 + Block1 + Block2 + Block3 + Block4 + Block5 + Block6 + Block7 + Block8

  const Block0: seq<Entry> := [
    Row("bulb", "\U{1F4A1}"),
    Row("heavy_minus_sign", "\U{2796}"),
    Row("bug", "\U{1F41B}"),
    Row("art", "\U{1F3A8}"),
    Row("hammer", "\U{1F528}"),
    Row("sparkles", "\U{2728}"),
    Row("building_construction", "\U{1F3D7}\U{FE0F}"),
    Row("wrench", "\U{1F527}")
  ]

  const Block1: seq<Entry> := [
    Row("triangular_flag_on_post", "\U{1F6A9}"),
    Row("arrow_down", "\U{2B07}\U{FE0F}"),
    Row("label", "\U{1F3F7}\U{FE0F}"),
    Row("dizzy", "\U{1F4AB}"),
    Row("white_check_mark", "\U{2705}"),
    Row("mag", "\U{1F50D}\U{FE0F}"),
    Row("bento", "\U{1F371}"),
    Row("chart_with_upwards_trend", "\U{1F4C8}")
  ]

  const Block2: seq<Entry> := [
    Row("beers", "\U{1F37B}"),
    Row("boom", "\U{1F4A5}"),
    Row("bookmark", "\U{1F516}"),
    Row("monocle_face", "\U{1F9D0}"),
    Row("recycle", "\U{267B}\U{FE0F}"),
    Row("card_file_box", "\U{1F5C3}\U{FE0F}"),
    Row("globe_with_meridians", "\U{1F310}"),
    Row("adhesive_bandage", "\U{1FA79}")
  ]

  const Block3: seq<Entry> := [
    Row("pushpin", "\U{1F4CC}"),
    Row("iphone", "\U{1F4F1}"),
    Row("test_tube", "\U{1F9EA}"),
    Row("page_facing_up", "\U{1F4C4}"),
    Row("alien", "\U{1F47D}\U{FE0F}"),
    Row("children_crossing", "\U{1F6B8}"),
    Row("poop", "\U{1F4A9}"),
    Row("heavy_plus_sign", "\U{2795}")
  ]

  const Block4: seq<Entry> := [
    Row("necktie", "\U{1F454}"),
    Row("rotating_light", "\U{1F6A8}"),
    Row("memo", "\U{1F4DD}"),
    Row("loud_sound", "\U{1F50A}"),
    Row("construction", "\U{1F6A7}"),
    Row("fire", "\U{1F525}"),
    Row("zap", "\U{26A1}\U{FE0F}"),
    Row("stethoscope", "\U{1FA7A}")
  ]

  const Block5: seq<Entry> := [
    Row("package", "\U{1F4E6}\U{FE0F}"),
    Row("camera_flash", "\U{1F4F8}"),
    Row("lipstick", "\U{1F484}"),
    Row("mute", "\U{1F507}"),
    Row("rocket", "\U{1F680}"),
    Row("lock", "\U{1F512}\U{FE0F}"),
    Row("ambulance", "\U{1F691}\U{FE0F}"),
    Row("pencil2", "\U{270F}\U{FE0F}")
  ]

  const Block6: seq<Entry> := [
    Row("arrow_up", "\U{2B06}\U{FE0F}"),
    Row("clown_face", "\U{1F921}"),
    Row("truck", "\U{1F69A}"),
    Row("goal_net", "\U{1F945}"),
    Row("egg", "\U{1F95A}"),
    Row("speech_balloon", "\U{1F4AC}"),
    Row("construction_worker", "\U{1F477}"),
    Row("passport_control", "\U{1F6C2}")
  ]

  const Block7: seq<Entry> := [
    Row("rewind", "\U{23EA}\U{FE0F}"),
    Row("wheelchair", "\U{267F}\U{FE0F}"),
    Row("alembic", "\U{2697}\U{FE0F}"),
    Row("seedling", "\U{1F331}"),
    Row("green_heart", "\U{1F49A}"),
    Row("tada", "\U{1F389}"),
    Row("busts_in_silhouette", "\U{1F465}"),
    Row("twisted_rightwards_arrows", "\U{1F500}")
  ]

  const Block8: seq<Entry> := [
    Row("wastebasket", "\U{1F5D1}\U{FE0F}"),
    Row("coffin", "\U{26B0}\U{FE0F}"),
    Row("see_no_evil", "\U{1F648}")
  ]

  /** `order` is one of the orders in which Go may range over GitEmojiMap. */
  ghost predicate IsMapOrder(order: seq<Entry>) {
    |order| == |GitEmojiTable| && forall e :: e in order <==> e in GitEmojiTable
  }

  lemma FirstBlocksWellFormed()
    ensures WellFormed(Block0) && WellFormed(Block1)
  {
  }

  lemma SecondBlocksWellFormed()
    ensures WellFormed(Block2) && WellFormed(Block3)
  {
  }

  lemma ThirdBlocksWellFormed()
    ensures WellFormed(Block4) && WellFormed(Block5)
  {
  }

  lemma LastBlocksWellFormed()
    ensures WellFormed(Block6) && WellFormed(Block7) && WellFormed(Block8)
  {
  }

  /** Every entry of GitEmojiMap is well formed. */
  lemma GitEmojiTableWellFormed()
    ensures WellFormed(GitEmojiTable)
  {
    FirstBlocksWellFormed();
    SecondBlocksWellFormed();
    ThirdBlocksWellFormed();
    LastBlocksWellFormed();
    var acc := Block0;
    WellFormedAppend(acc, Block1);
    acc := acc + Block1;
    WellFormedAppend(acc, Block2);
    acc := acc + Block2;
    WellFormedAppend(acc, Block3);
    acc := acc + Block3;
    WellFormedAppend(acc, Block4);
    acc := acc + Block4;
    WellFormedAppend(acc, Block5);
    acc := acc + Block5;
    WellFormedAppend(acc, Block6);
    acc := acc + Block6;
    WellFormedAppend(acc, Block7);
    acc := acc + Block7;
    WellFormedAppend(acc, Block8);
    acc := acc + Block8;
    assert acc == GitEmojiTable;
  }

  /** Every iteration order ranges over exactly the table's entries. */
  lemma MapOrderWellFormed(order: seq<Entry>)
    requires IsMapOrder(order)
    ensures WellFormed(order)
  {
    GitEmojiTableWellFormed();
  }

  /** Every call of trans2Emoji ranges over the map afresh, so a second call
      may visit the entries in another order; it still changes nothing. */
  lemma ReorderedPassIdempotent(o1: seq<Entry>, o2: seq<Entry>, s: string)
    requires IsMapOrder(o1) && IsMapOrder(o2)
    ensures Substitute(o2, Substitute(o1, s)) == Substitute(o1, s)
  {
    MapOrderWellFormed(o1);
    MapOrderWellFormed(o2);
    SubstituteRemovesKeys(o1, s);
    SubstituteUnchanged(o2, Substitute(o1, s));
  }

  /** The table minus its third and fourth entries, `bug` and `art`. */
  ghost const OtherEntries: seq<Entry> := GitEmojiTable[..2] + GitEmojiTable[4..]

  lemma BugAndArt()
    ensures GitEmojiTable[2] == Entry("bug", "\U{1F41B}")
    ensures GitEmojiTable[3] == Entry("art", "\U{1F3A8}")
  {
  }

  /** `bug` and `art` may come first in either order. */
  lemma BugArtOrders()
    ensures IsMapOrder([GitEmojiTable[2], GitEmojiTable[3]] + OtherEntries)
    ensures IsMapOrder([GitEmojiTable[3], GitEmojiTable[2]] + OtherEntries)
    ensures WellFormed(OtherEntries)
  {
    PairToFront(GitEmojiTable, 2);
    GitEmojiTableWellFormed();
    assert forall e | e in OtherEntries :: e in GitEmojiTable;
  }

  /** Ranging over the map in two different orders turns ":bug:art:" into two
      different messages, so trans2Emoji's result is not determined by its
      input alone. */
  lemma OrderMatters()
    ensures IsMapOrder([GitEmojiTable[2], GitEmojiTable[3]] + OtherEntries)
    ensures IsMapOrder([GitEmojiTable[3], GitEmojiTable[2]] + OtherEntries)
    ensures Substitute([GitEmojiTable[2], GitEmojiTable[3]] + OtherEntries, ":bug:art:") == "\U{1F41B}art:"
    ensures Substitute([GitEmojiTable[3], GitEmojiTable[2]] + OtherEntries, ":bug:art:") == ":bug\U{1F3A8}"
  {
    BugAndArt();
    BugArtOrders();
    BugThenArt(OtherEntries);
    ArtThenBug(OtherEntries);
  }
}
