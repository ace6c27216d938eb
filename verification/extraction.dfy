/**
 * SQL extraction from the generated text (query_generators/openai.py:184):
 * the query is the last piece of the text split on the opening fence
 * "```sql", that is, everything after the last fence, or the whole text
 * when there is none. The closing fence is not removed here; the service
 * is asked to stop at "```", so it normally never appears.
 */
module Extraction {
  import opened PyStrings

  const SqlFence: string := "```sql"

  /** `results.split("```sql")[-1]`. */
  function ExtractQuery(raw: string): string {
    var pieces := Split(raw, SqlFence);
    pieces[|pieces| - 1]
  }

  /**
   * The extracted query is a suffix of the text holding no fence; it is the
   * whole text exactly when the text holds no fence, and otherwise it
   * starts right after the last fence.
   */
  lemma ExtractQueryAfterLastFence(raw: string)
    ensures var q := ExtractQuery(raw);
      && |q| <= |raw| && raw[|raw| - |q|..] == q
      && !Contains(q, SqlFence)
      && (q == raw <==> !Contains(raw, SqlFence))
      && (Contains(raw, SqlFence) ==> LastOccurrence(raw, SqlFence, |raw| - |q| - |SqlFence|))
  {
    var ps := Split(raw, SqlFence);
    LastCharUnique(SqlFence);
    LastPiece(raw, SqlFence);
    LastPieceAfterLastOccurrence(raw, SqlFence);
    SplitPieces(raw, SqlFence);
    assert ps[|ps| - 1] in ps;
    if |ps| == 1 {
      JoinSplit(raw, SqlFence);
    }
  }

  /**
   * A fence followed by no 'l' (the fence's last character) is the last
   * fence, so the query is everything after it.
   */
  lemma QueryAfterFence(raw: string, k: int)
    requires OccursAt(raw, SqlFence, k)
    requires forall i | k + |SqlFence| <= i < |raw| :: raw[i] != 'l'
    ensures ExtractQuery(raw) == raw[k + |SqlFence|..]
  {
    ExtractQueryAfterLastFence(raw);
    var q := ExtractQuery(raw);
    var last := |raw| - |q| - |SqlFence|;
    assert OccursAt(raw, SqlFence, last) && last >= k;
    assert raw[last + 5] == SqlFence[5] == 'l';
  }

  /**
   * The closing fence of a fenced answer stays in the query: everything
   * after the opening fence is kept.
   */
  lemma ClosingFenceKept(raw: string)
    requires raw == "blah ```sql SELECT 1 ```"
    ensures ExtractQuery(raw) == " SELECT 1 ```"
  {
    assert raw[5..11] == SqlFence;
    QueryAfterFence(raw, 5);
  }
}
