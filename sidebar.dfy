/** The sidebar's board search and board count (src/components/organisms/Sidebar.tsx). */
module Sidebar {
  import opened Lists
  import opened Text
  import opened Entities
  import BoardSelectors

  /** The boards whose lower-cased title contains `lowerQuery`. */
  function MatchingBoards(boards: seq<Board>, lowerQuery: string): (r: seq<Board>)
    ensures forall b :: b in r <==> b in boards && Includes(ToLower(b.title), lowerQuery)
    ensures forall b: Board :: multiset(r)[b] == if Includes(ToLower(b.title), lowerQuery) then multiset(boards)[b] else 0
    ensures IsSubsequence(r, boards)
  {
    var keep := (b: Board) => Includes(ToLower(b.title), lowerQuery);
    FilterMultiset(boards, keep);
    FilterSubsequence(boards, keep);
    Filter(boards, keep)
  }

  /** `filteredBoards`: case-insensitive substring search on the titles, in list order. */
  function FilteredBoards(boards: seq<Board>, searchQuery: string): (r: seq<Board>)
    ensures forall b :: b in r <==> b in boards && Includes(ToLower(b.title), ToLower(searchQuery))
    ensures forall b: Board :: multiset(r)[b] == if Includes(ToLower(b.title), ToLower(searchQuery)) then multiset(boards)[b] else 0
    ensures IsSubsequence(r, boards)
    ensures |r| <= BoardSelectors.BoardCount(boards)
  {
    MatchingBoards(boards, ToLower(searchQuery))
  }

  /** An empty query shows every board. */
  lemma EmptyQueryShowsAll(boards: seq<Board>)
    ensures FilteredBoards(boards, "") == boards
  {
    forall i | 0 <= i < |boards| ensures Includes(ToLower(boards[i].title), "") {
      IncludesEmpty(ToLower(boards[i].title));
    }
    FilterKeepsAll(boards, (b: Board) => Includes(ToLower(b.title), ""));
  }

  /** Upper-casing or lower-casing the query does not change what is found. */
  lemma SearchIgnoresQueryCase(boards: seq<Board>, query: string)
    ensures FilteredBoards(boards, ToUpper(query)) == FilteredBoards(boards, query)
    ensures FilteredBoards(boards, ToLower(query)) == FilteredBoards(boards, query)
  {
    LowerOfUpper(query);
    LowerIdempotent(query);
  }

  /**
   * The count in the sidebar's header is taken over all boards, not over the
   * search result: the result never exceeds it, equals it for an empty
   * query, and falls short of it as soon as one board does not match.
   */
  lemma {:induction false} BoardCountCoversAllBoards(boards: seq<Board>, query: string, missed: Board)
    ensures |FilteredBoards(boards, query)| <= BoardSelectors.BoardCount(boards)
    ensures |FilteredBoards(boards, "")| == BoardSelectors.BoardCount(boards)
    ensures missed in boards && !Includes(ToLower(missed.title), ToLower(query))
      ==> |FilteredBoards(boards, query)| < BoardSelectors.BoardCount(boards)
  {
    EmptyQueryShowsAll(boards);
    var keep := (b: Board) => Includes(ToLower(b.title), ToLower(query));
    var drop := (b: Board) => !Includes(ToLower(b.title), ToLower(query));
    FilterComplement(boards, keep, drop);
    if missed in boards && !Includes(ToLower(missed.title), ToLower(query)) {
      assert missed in Filter(boards, drop);
    }
  }
}
