/** Chat messages and the list updates the chat page applies to its
    conversation: append, drop-last (`slice(0, -1)`), replace-last and
    rate-last. */
module Messages {

  datatype Option<+T> = None | Some(value: T)

  datatype Role = User | Assistant

  datatype Rating = Up | Down

  /** One chat message. `rating` is absent until the user rates an
      assistant reply. */
  datatype Message = Message(role: Role, content: string, rating: Option<Rating>)

  /** A new, unrated message of the given role. */
  function Unrated(role: Role, content: string): Message {
    Message(role, content, None)
  }

  /** `[...s, x]` */
  function Append<T>(s: seq<T>, x: T): (r: seq<T>)
    ensures |r| == |s| + 1
    ensures r[..|s|] == s && r[|s|] == x
  {
    s + [x]
  }

  /** `s.slice(0, -1)`: every element but the last; the empty list stays empty. */
  function DropLast<T>(s: seq<T>): (r: seq<T>)
    ensures |s| > 0 ==> |r| == |s| - 1 && forall i :: 0 <= i < |r| ==> r[i] == s[i]
    ensures s == [] ==> r == []
  {
    if |s| == 0 then [] else s[..|s| - 1]
  }

  /** `[...s.slice(0, -1), x]`: on a non-empty list, the same length with
      every element but the last kept and `x` last; on the empty list, `[x]`. */
  function ReplaceLast<T>(s: seq<T>, x: T): (r: seq<T>)
    ensures |s| > 0 ==> |r| == |s| && r[..|s| - 1] == s[..|s| - 1]
    ensures forall i :: 0 <= i < |s| - 1 ==> r[i] == s[i]
    ensures |r| > 0 && r[|r| - 1] == x
    ensures s == [] ==> r == [x]
  {
    DropLast(s) + [x]
  }

  /** The rating updater: the last message gets `rating` when it is an
      assistant reply; otherwise the list is returned as it is. Length, every
      role and content, and every element but the last never change. The
      updater reads the last element's role, so it needs a non-empty list. */
  function RateLast(s: seq<Message>, rating: Rating): (r: seq<Message>)
    requires |s| > 0
    ensures |r| == |s|
    ensures forall i :: 0 <= i < |s| - 1 ==> r[i] == s[i]
    ensures forall i :: 0 <= i < |s| ==> r[i].role == s[i].role && r[i].content == s[i].content
    ensures r[|s| - 1].rating == (if s[|s| - 1].role == Assistant then Some(rating) else s[|s| - 1].rating)
    ensures s[|s| - 1].role == User ==> r == s
  {
    var last := s[|s| - 1];
    if last.role == Assistant then ReplaceLast(s, last.(rating := Some(rating))) else s
  }

  /** Dropping the last element undoes an append. */
  lemma DropLastAppend<T>(s: seq<T>, x: T)
    ensures DropLast(Append(s, x)) == s
  {
    assert (s + [x])[..|s|] == s;
  }

  /** A non-empty list is its drop-last followed by its last element. */
  lemma AppendDropLast<T>(s: seq<T>)
    requires |s| > 0
    ensures Append(DropLast(s), s[|s| - 1]) == s
  {
  }

  /** Replacing after an append is the same as appending the replacement. */
  lemma ReplaceLastAppend<T>(s: seq<T>, x: T, y: T)
    ensures ReplaceLast(Append(s, x), y) == Append(s, y)
  {
    DropLastAppend(s, x);
  }

  /** Only the second of two replacements is visible. */
  lemma ReplaceLastTwice<T>(s: seq<T>, x: T, y: T)
    ensures ReplaceLast(ReplaceLast(s, x), y) == ReplaceLast(s, y)
  {
    DropLastAppend(DropLast(s), x);
  }

  /** Rating twice leaves the second rating; the first is overwritten. */
  lemma RateLastTwice(s: seq<Message>, first: Rating, second: Rating)
    requires |s| > 0
    ensures |RateLast(s, first)| > 0
    ensures RateLast(RateLast(s, first), second) == RateLast(s, second)
  {
    var last := s[|s| - 1];
    if last.role == Assistant {
      var once := ReplaceLast(s, last.(rating := Some(first)));
      ReplaceLastTwice(s, last.(rating := Some(first)), last.(rating := Some(second)));
      assert once[|once| - 1] == last.(rating := Some(first));
    }
  }
}
