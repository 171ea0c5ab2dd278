/** The archive card (components/games/ArchiveCard.tsx): one past quiz date, shown with a
    badge and at most three topic tags. */
module ArchiveCard {
  import opened Text
  import GamesData

  /** The card's properties; `tags` defaults to the empty list. */
  datatype CardProps = CardProps(
    gameType: string,
    date: string,
    questionCount: int,
    isToday: bool,
    href: string,
    tags: seq<string>)

  const TODAY_BADGE: string := "오늘의 퀴즈"
  const OTHER_TAG: string := "기타"

  /** The tags the card draws: a topic tag, the "+k" tag for the ones not shown, or the
      "other" tag drawn when there are none. */
  datatype TagChip = TopicTag(text: string) | MoreTag(more: string) | OtherTag

  /** `tags.slice(0, 3)`. */
  function DisplayTags(tags: seq<string>): (r: seq<string>)
    ensures |r| == if |tags| < 3 then |tags| else 3
    ensures r == tags[..|r|]
  {
    Take(tags, 3)
  }

  /** `Math.max(0, tags.length - 3)`. */
  function RemainingCount(tags: seq<string>): (r: nat)
    ensures |DisplayTags(tags)| + r == |tags|
    ensures r > 0 <==> |tags| > 3
  {
    if |tags| > 3 then |tags| - 3 else 0
  }

  /** The card shows the same tags and count as the lookup layer's tag summary. */
  lemma CardMatchesSummary(tags: seq<string>)
    ensures DisplayTags(tags) == GamesData.Summarize(tags).displayTags
    ensures RemainingCount(tags) == GamesData.Summarize(tags).remainingCount
  {
  }

  /** The tag row: the shown tags, then "+k" when some are left over; a single "other"
      tag when there are no tags at all. */
  function TagRow(tags: seq<string>): (r: seq<TagChip>)
    ensures |tags| == 0 ==> r == [OtherTag]
    ensures |tags| > 0 ==> |r| == |DisplayTags(tags)| + (if |tags| > 3 then 1 else 0)
    ensures |tags| > 0 ==> forall i :: 0 <= i < |DisplayTags(tags)| ==> r[i] == TopicTag(tags[i])
    ensures |tags| > 3 ==> r[|r| - 1] == MoreTag("+" + NatToString(|tags| - 3))
  {
    var shown := DisplayTags(tags);
    if |shown| > 0 then
      seq(|shown|, i requires 0 <= i < |shown| => TopicTag(shown[i]))
      + (if RemainingCount(tags) > 0 then [MoreTag("+" + IntToString(RemainingCount(tags)))] else [])
    else [OtherTag]
  }

  /** The number of tags a card accounts for: each topic tag once, a "+k" tag k times. */
  function Accounted(row: seq<TagChip>): nat {
    if |row| == 0 then 0
    else
      var last := row[|row| - 1];
      Accounted(row[..|row| - 1]) + (match last
        case TopicTag(_) => 1
        case MoreTag(more) => if |more| > 1 && IsDigits(more[1..]) then DigitsValue(more[1..]) else 0
        case OtherTag => 0)
  }

  /** Every tag of the date is accounted for on the card, shown or counted in "+k", and
      the "other" tag appears exactly when the date has none. */
  lemma TagRowAccountsForAll(tags: seq<string>)
    ensures Accounted(TagRow(tags)) == |tags|
    ensures OtherTag in TagRow(tags) <==> |tags| == 0
  {
    var row := TagRow(tags);
    var shown := DisplayTags(tags);
    if |tags| > 0 {
      var topics := seq(|shown|, i requires 0 <= i < |shown| => TopicTag(shown[i]));
      TopicsAccounted(topics);
      if |tags| > 3 {
        var more := "+" + NatToString(|tags| - 3);
        assert row == topics + [MoreTag(more)];
        assert row[..|row| - 1] == topics;
        assert more[1..] == NatToString(|tags| - 3);
        DigitsValueOfNatToString(|tags| - 3);
      } else {
        assert row == topics;
      }
    }
  }

  lemma {:induction false} TopicsAccounted(row: seq<TagChip>)
    requires forall i :: 0 <= i < |row| ==> row[i].TopicTag?
    ensures Accounted(row) == |row|
  {
    if |row| > 0 {
      TopicsAccounted(row[..|row| - 1]);
    }
  }

  /** The badge: "오늘의 퀴즈" for today's quiz, otherwise the number of questions followed
      by "문제". */
  function Badge(isToday: bool, questionCount: int): (r: string)
    ensures isToday ==> r == TODAY_BADGE
    ensures !isToday ==> r == IntToString(questionCount) + "문제"
  {
    if isToday then TODAY_BADGE else IntToString(questionCount) + "문제"
  }

  /** The badge tells today's card from the others: no question count reads as today's
      badge, and different counts give different badges. */
  lemma BadgeDistinguishes(c1: int, c2: int)
    ensures Badge(false, c1) != Badge(true, c1)
    ensures c1 != c2 ==> Badge(false, c1) != Badge(false, c2)
  {
    var b1 := Badge(false, c1);
    var s1 := IntToString(c1);
    assert b1[0] == s1[0];
    assert s1[0] == '-' || IsDigit(s1[0]) by {
      if c1 >= 0 { assert IsDigit(NatToString(c1)[0]); }
    }
    assert TODAY_BADGE[0] == '오';
    if c1 != c2 {
      var s2 := IntToString(c2);
      var b2 := Badge(false, c2);
      if b1 == b2 {
        assert s1 == b1[..|b1| - 2];
        assert s2 == b2[..|b2| - 2];
        ParseIntOfIntToString(c1);
        ParseIntOfIntToString(c2);
        assert false;
      }
    }
  }
}
