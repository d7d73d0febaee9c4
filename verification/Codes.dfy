/** Which kind a type string names (the branches of the scoring loop in app/ai/agents/policy.py): the first branch decides. */
module Codes {
  import opened Defects

  const BRANCHES := 13

  /** The words of a branch. */
  function WordsOf(k: nat): seq<string> {
    match k
    case 0 => ["WET", "WATER", "WARPING", "침수", "휨"]
    case 1 => ["WEAR", "마모"]
    case 2 => ["DOODLE", "필기", "낙서"]
    case 3 => ["STAIN", "오염", "얼룩"]
    case 4 => ["DISCOLOR", "변색", "황변"]
    case 5 => ["SCRATCH", "긁힘", "스크래치"]
    case 6 => ["TEAR", "찢어짐", "찢김"]
    case 7 => ["STICKER", "스티커"]
    case 8 => ["CRUSH", "찍힘", "구겨짐", "찌그러짐"]
    case 9 => ["SPINE", "갈라짐"]
    case 10 => ["BINDING", "제본"]
    case 11 => ["SIGNATURE", "서명", "이름"]
    case _ => ["STAMP", "도장"]
  }

  /** The branch of a kind; a text of no kind reaches the end. */
  function BranchOf(kind: Kind): nat {
    match kind
    case Wet(_) => 0
    case Wear => 1
    case Doodle => 2
    case Stain => 3
    case Discolor => 4
    case Scratch => 5
    case Tear => 6
    case Sticker => 7
    case Crush => 8
    case Spine => 9
    case Binding => 10
    case Signature => 11
    case Stamp => 12
    case Other => 13
  }

  lemma NamesItsBranch(text: string)
    requires BranchOf(Classify(text)) < BRANCHES
    ensures MentionsAny(text, WordsOf(BranchOf(Classify(text))))
  {
  }

  lemma NamesNoneBefore(text: string, j: nat)
    requires j < BranchOf(Classify(text))
    ensures !MentionsAny(text, WordsOf(j))
  {
    match j
    case 0 =>
    case 1 =>
    case 2 =>
    case 3 =>
    case 4 =>
    case 5 =>
    case 6 =>
    case 7 =>
    case 8 =>
    case 9 =>
    case 10 =>
    case 11 =>
    case _ =>
  }

  /** A text is of the first branch that it has a word of; without any word it is of none. A soaked book is known to be worn
      as well exactly if it has a word for that. */
  lemma KindOfText(text: string)
    ensures var k := BranchOf(Classify(text));
            && (k < BRANCHES ==> MentionsAny(text, WordsOf(k)))
            && forall j: nat :: j < k ==> !MentionsAny(text, WordsOf(j))
    ensures Classify(text).Wet? ==> (Classify(text).alsoWear <==> MentionsAny(text, WordsOf(1)))
  {
    var k := BranchOf(Classify(text));
    if k < BRANCHES {
      NamesItsBranch(text);
    }
    forall j: nat | j < k
      ensures !MentionsAny(text, WordsOf(j))
    {
      NamesNoneBefore(text, j);
    }
  }
}
