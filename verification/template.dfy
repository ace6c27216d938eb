/**
 * Chat-mode prompt templates (query_generators/openai.py, generate_query).
 * A template is cut into three sections by two fixed markers: the system
 * text before "### Input:", the user text after it up to "### Response:",
 * and the assistant priming text after "### Response:". Each section is
 * taken from a Python `split` with a literal index, so a missing marker is
 * an `IndexError` raised before any completion is requested.
 */
module Template {
  import opened Wrappers
  import opened PyStrings

  const InputMarker: string := "### Input:"
  const ResponseMarker: string := "### Response:"

  /** The three chat-mode sections of a template, before placeholder filling. */
  datatype Sections = Sections(system: string, user: string, assistant: string)

  /** The `IndexError` raised by the split on a missing marker. */
  datatype TemplateError = MissingInputMarker | MissingResponseMarker

  /** Both markers are border-free, so their occurrences never overlap. */
  lemma MarkersBorderFree()
    ensures BorderFree(InputMarker) && BorderFree(ResponseMarker)
  {
    LastCharUnique(InputMarker);
    LastCharUnique(ResponseMarker);
  }

  /**
   * The section parse of lines 144-146. The `### Input:` split is indexed
   * first (line 145), so a template missing both markers reports the
   * Input marker.
   */
  function ParseTemplate(t: string): (r: Result<Sections, TemplateError>)
  {
    var byInput := Split(t, InputMarker);
    if |byInput| < 2 then
      Failure(MissingInputMarker)
    else
      var user := Split(byInput[1], ResponseMarker)[0];
      var byResponse := Split(t, ResponseMarker);
      if |byResponse| < 2 then
        Failure(MissingResponseMarker)
      else
        Success(Sections(byInput[0], user, byResponse[1]))
  }

  /**
   * Parsing fails exactly when a marker is absent, and reports the Input
   * marker whenever that one is absent.
   */
  lemma ParseFailsIffMarkerMissing(t: string)
    ensures ParseTemplate(t) == Failure(MissingInputMarker) <==> !Contains(t, InputMarker)
    ensures ParseTemplate(t) == Failure(MissingResponseMarker) <==>
      Contains(t, InputMarker) && !Contains(t, ResponseMarker)
    ensures ParseTemplate(t).Success? <==>
      Contains(t, InputMarker) && Contains(t, ResponseMarker)
  {
    SplitPieces(t, InputMarker);
    SplitPieces(t, ResponseMarker);
  }

  /** The user text: where it starts in `t`, and what can stop it. */
  ghost predicate UserSection(t: string, start: int, user: string) {
    && 0 <= start
    && start + |user| <= |t|
    && t[start..start + |user|] == user
    && !Contains(user, InputMarker)
    && !Contains(user, ResponseMarker)
    && (|| start + |user| == |t|
        || OccursAt(t, InputMarker, start + |user|)
        || OccursAt(t, ResponseMarker, start + |user|))
  }

  /** The system text is everything before the first Input marker. */
  ghost predicate SystemText(t: string, sys: string) {
    FirstOccurrence(t, InputMarker, |sys|) && t[..|sys|] == sys
  }

  /** The assistant text runs from the first Response marker to the next one (or the end). */
  ghost predicate AssistantSection(t: string, asst: string) {
    exists j :: FirstOccurrence(t, ResponseMarker, j) && PieceAt(t, ResponseMarker, j + |ResponseMarker|, asst)
  }

  /** Where the three chat sections lie in the template text. */
  ghost predicate TemplateSections(t: string, sys: string, user: string, asst: string) {
    && SystemText(t, sys)
    && UserSection(t, |sys| + |InputMarker|, user)
    && AssistantSection(t, asst)
  }

  /** The parsed system section is the text before the first Input marker. */
  lemma SystemSection(t: string)
    requires ParseTemplate(t).Success?
    ensures SystemText(t, ParseTemplate(t).value.system)
  {
    HeadFirst(t, InputMarker);
    HeadPrefix(t, InputMarker, 0);
    assert t[0..] == t;
  }

  /**
   * The user text starts right after the first Input marker and runs to the
   * next marker of either kind (or to the end).
   */
  lemma UserText(t: string)
    requires ParseTemplate(t).Success?
    ensures var sec := ParseTemplate(t).value;
      UserSection(t, |sec.system| + |InputMarker|, sec.user)
  {
    SplitSecond(t, InputMarker);
    var start := |Split(t, InputMarker)[0]| + |InputMarker|;
    UserWithinPiece(t, start, Split(t, InputMarker)[1]);
  }

  /**
   * Cutting an Input-delimited piece of `t` at its first Response marker
   * gives text that satisfies `UserSection`.
   */
  lemma UserWithinPiece(t: string, start: int, piece: string)
    requires PieceAt(t, InputMarker, start, piece)
    ensures UserSection(t, start, Split(piece, ResponseMarker)[0])
  {
    var user := Split(piece, ResponseMarker)[0];
    assert PieceAt(piece, ResponseMarker, 0, user) by {
      SplitHead(piece, ResponseMarker, 0);
      assert piece[0..] == piece;
    }
    assert piece[..|user|] == user;
    assert !Contains(user, InputMarker) by {
      PrefixFree(piece, InputMarker, |user|);
    }
    assert t[start..start + |user|] == user;
    assert |user| < |piece| ==> OccursAt(t, ResponseMarker, start + |user|) by {
      if |user| < |piece| {
        OccursInSlice(t, ResponseMarker, start, start + |piece|, |user|);
      }
    }
  }

  /**
   * The assistant text starts right after the first Response marker and runs
   * to the next Response marker (or to the end).
   */
  lemma AssistantText(t: string)
    requires ParseTemplate(t).Success?
    ensures AssistantSection(t, ParseTemplate(t).value.assistant)
  {
    HeadFirst(t, ResponseMarker);
    SplitSecond(t, ResponseMarker);
    var j := |Split(t, ResponseMarker)[0]|;
    assert FirstOccurrence(t, ResponseMarker, j);
  }

  /** The template text made of three sections and the two markers between them. */
  function Compose(sec: Sections): string {
    sec.system + InputMarker + sec.user + ResponseMarker + sec.assistant
  }

  /**
   * No Input marker can begin inside the last nine characters of the
   * Response marker (none of them is '#'), so a user text and Response
   * marker free of Input markers stay whole in the piece before the next
   * Input marker, whatever follows.
   */
  lemma InputPieceKeepsResponse(user: string, rest: string)
    requires !Contains(user + ResponseMarker, InputMarker)
    ensures var x := Split(user + ResponseMarker + rest, InputMarker)[0];
      |user + ResponseMarker| <= |x| && x[..|user + ResponseMarker|] == user + ResponseMarker
  {
    var ur := user + ResponseMarker;
    var s := ur + rest;
    assert s == user + ResponseMarker + rest;
    assert s[0..] == s;
    assert s[..|ur|] == ur;
    HeadPrefix(s, InputMarker, 0);
    HeadEnd(s, InputMarker, 0);
    assert forall k | 4 <= k < |ResponseMarker| :: ResponseMarker[k] != InputMarker[0];
    forall p | 0 <= p < |ur|
      ensures !OccursAt(s, InputMarker, p)
    {
      if p + |InputMarker| <= |ur| {
        OccursInPrefix(s, InputMarker, |ur|, p);
      } else {
        assert s[p] == ResponseMarker[p - |user|];
      }
    }
  }

  /**
   * Composing and parsing are inverse: a template laid out as system text,
   * Input marker, user text, Response marker, assistant text parses back
   * into exactly those sections, provided no marker occurs where it would
   * cut a section short: no Input marker before the user text ends (the
   * Response marker included), and no Response marker in the system or user
   * text or in the assistant text. The assistant text may hold Input
   * markers.
   */
  lemma ParseCompose(sec: Sections)
    requires !Contains(sec.system, InputMarker)
    requires !Contains(sec.user + ResponseMarker, InputMarker)
    requires !Contains(sec.system + InputMarker + sec.user, ResponseMarker)
    requires !Contains(sec.assistant, ResponseMarker)
    ensures ParseTemplate(Compose(sec)) == Success(sec)
  {
    MarkersBorderFree();
    ComposedInputSplit(sec);
    ComposedUserPiece(sec);
    ComposedResponseSplit(sec);
  }

  /** In a composed template the first Input marker follows the system text. */
  lemma ComposedInputSplit(sec: Sections)
    requires !Contains(sec.system, InputMarker)
    ensures var byInput := Split(Compose(sec), InputMarker);
      && |byInput| >= 2 && byInput[0] == sec.system
      && byInput[1] == Split(sec.user + ResponseMarker + sec.assistant, InputMarker)[0]
  {
    MarkersBorderFree();
    var t := Compose(sec);
    var rest := sec.user + ResponseMarker + sec.assistant;
    assert t == sec.system + InputMarker + rest;
    FirstAtBoundary(sec.system, InputMarker, rest);
    SplitAtFirst(t, InputMarker, |sec.system|);
    assert t[|sec.system| + |InputMarker|..] == rest;
  }

  /** The piece after the first Input marker, cut at the Response marker, is the user text. */
  lemma ComposedUserPiece(sec: Sections)
    requires !Contains(sec.user + ResponseMarker, InputMarker)
    requires !Contains(sec.system + InputMarker + sec.user, ResponseMarker)
    ensures var x := Split(sec.user + ResponseMarker + sec.assistant, InputMarker)[0];
      Split(x, ResponseMarker)[0] == sec.user
  {
    MarkersBorderFree();
    var x := Split(sec.user + ResponseMarker + sec.assistant, InputMarker)[0];
    var head := sec.system + InputMarker + sec.user;
    var ur := sec.user + ResponseMarker;
    InputPieceKeepsResponse(sec.user, sec.assistant);
    assert x == sec.user + ResponseMarker + x[|ur|..];
    assert head[|sec.system + InputMarker|..] == sec.user;
    SuffixFree(head, ResponseMarker, |sec.system + InputMarker|);
    FirstAtBoundary(sec.user, ResponseMarker, x[|ur|..]);
    SplitAtFirst(x, ResponseMarker, |sec.user|);
  }

  /** In a composed template the piece after the first Response marker is the assistant text. */
  lemma ComposedResponseSplit(sec: Sections)
    requires !Contains(sec.system + InputMarker + sec.user, ResponseMarker)
    requires !Contains(sec.assistant, ResponseMarker)
    ensures var byResponse := Split(Compose(sec), ResponseMarker);
      |byResponse| >= 2 && byResponse[1] == sec.assistant
  {
    MarkersBorderFree();
    var t := Compose(sec);
    var head := sec.system + InputMarker + sec.user;
    assert t == head + ResponseMarker + sec.assistant;
    FirstAtBoundary(head, ResponseMarker, sec.assistant);
    SplitAtFirst(t, ResponseMarker, |head|);
    assert t[|head| + |ResponseMarker|..] == sec.assistant;
    FindFirst(sec.assistant, ResponseMarker);
    SplitNone(sec.assistant, ResponseMarker);
  }

  /** A composed template whose assistant text holds an Input marker still parses back. */
  lemma AssistantMayHoldInputMarker(sec: Sections)
    requires sec == Sections("S", "U", "A### Input:B")
    ensures ParseTemplate(Compose(sec)) == Success(sec)
  {
    assert !Contains(sec.system, InputMarker);
    var ur := sec.user + ResponseMarker;
    forall p | 0 <= p
      ensures !OccursAt(ur, InputMarker, p)
    {
      if p + |InputMarker| <= |ur| {
        assert ur[p + 4] != InputMarker[4];
      }
    }
    assert !Contains(sec.system + InputMarker + sec.user, ResponseMarker);
    assert !Contains(sec.assistant, ResponseMarker);
    ParseCompose(sec);
  }
}
