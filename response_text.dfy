/**
 * Text extraction in the `processTranscript` handler (gemini_example.ts):
 * the first-candidate, first-part text of every streamed chunk, joined in
 * chunk order, with every markdown code fence ("```json" or "```") removed
 * as by the global replace `/```json|```/g`.
 */
module ResponseText {
  import opened Wrappers

  /**
   * One streamed response chunk, as much of it as
   * `candidates?.[0]?.content?.parts?.[0]?.text` reads. None stands for a
   * property or array element that is undefined or null.
   */
  datatype ResponsePart = ResponsePart(text: Option<string>)
  datatype CandidateContent = CandidateContent(parts: Option<seq<Option<ResponsePart>>>)
  datatype Candidate = Candidate(content: Option<CandidateContent>)
  datatype Chunk = Chunk(candidates: Option<seq<Option<Candidate>>>)

  /** The parsed response body: an array whose elements are chunks or null, or some other JSON value. */
  datatype ResponseBody = ChunkArray(items: seq<Option<Chunk>>) | NotAnArray

  const JsonFence := "```json"
  const Fence := "```"

  /** The optional chain `candidates?.[0]?.content?.parts?.[0]?.text`. */
  function FirstText(c: Chunk): (t: Option<string>)
    ensures t.Some? ==> c.candidates.Some? && |c.candidates.value| > 0 && c.candidates.value[0].Some?
  {
    match c.candidates
    case None => None
    case Some(cs) =>
      if |cs| == 0 then None
      else match cs[0]
        case None => None
        case Some(candidate) =>
          match candidate.content
          case None => None
          case Some(content) =>
            match content.parts
            case None => None
            case Some(ps) =>
              if |ps| == 0 then None
              else match ps[0]
                case None => None
                case Some(part) => part.text
  }

  /** A chunk whose first candidate has content whose first part is present yields that part's text. */
  lemma FirstTextOfShape(t: Option<string>, ps: seq<Option<ResponsePart>>, cs: seq<Option<Candidate>>)
    ensures FirstText(Chunk(Some([Some(Candidate(Some(CandidateContent(Some([Some(ResponsePart(t))] + ps)))))] + cs))) == t
  {
  }

  /**
   * Conversely, a text comes only from a chunk of that shape: where
   * `candidates`, the first candidate, its `content`, its `parts` or the
   * first part is missing, the chain yields None.
   */
  lemma FirstTextShape(c: Chunk)
    requires FirstText(c).Some?
    ensures exists ps: seq<Option<ResponsePart>>, cs: seq<Option<Candidate>> ::
              c == Chunk(Some([Some(Candidate(Some(CandidateContent(Some([Some(ResponsePart(FirstText(c)))] + ps)))))] + cs))
  {
    var cands := c.candidates.value;
    var parts := cands[0].value.content.value.parts.value;
    var ps, cs := parts[1..], cands[1..];
    assert parts == [parts[0]] + ps;
    assert cands == [cands[0]] + cs;
  }

  /** A chunk's contribution to the combined text: its first text, or "" when it has none. */
  function ChunkText(c: Chunk): (t: string)
    ensures FirstText(c).Some? ==> t == FirstText(c).value
    ensures FirstText(c).None? ==> t == ""
  {
    FirstText(c).GetOr("")
  }

  /**
   * `items.map(item => ... || "").join("")`: None when some element is null,
   * where reading `candidates` of it throws.
   */
  function Combine(items: seq<Option<Chunk>>): (r: Option<string>)
    ensures r.Some? ==> forall i :: 0 <= i < |items| ==> items[i].Some?
  {
    if items == [] then Some("")
    else match items[0]
      case None => None
      case Some(c) =>
        match Combine(items[1..])
        case None => None
        case Some(rest) => Some(ChunkText(c) + rest)
  }

  /** The chunk texts, in chunk order, of an array with no null element. */
  function Texts(items: seq<Option<Chunk>>): (ts: seq<string>)
    requires forall i :: 0 <= i < |items| ==> items[i].Some?
    ensures |ts| == |items|
    ensures forall i :: 0 <= i < |items| ==> ts[i] == ChunkText(items[i].value)
  {
    seq(|items|, i requires 0 <= i < |items| => ChunkText(items[i].value))
  }

  /** Plain concatenation of a list of strings. */
  function Concat(ts: seq<string>): string {
    if ts == [] then "" else ts[0] + Concat(ts[1..])
  }

  /**
   * Combining succeeds exactly when no element is null, and then yields the
   * concatenation of the chunk texts in chunk order.
   */
  lemma {:induction false} CombineIsJoin(items: seq<Option<Chunk>>)
    ensures Combine(items).Some? <==> forall i :: 0 <= i < |items| ==> items[i].Some?
    ensures Combine(items).Some? ==> Combine(items).value == Concat(Texts(items))
  {
    if items != [] {
      CombineIsJoin(items[1..]);
      assert forall i :: 1 <= i < |items| ==> items[1..][i - 1] == items[i];
      if Combine(items).Some? {
        assert Texts(items) == [ChunkText(items[0].value)] + Texts(items[1..]);
      }
    }
  }

  /** Joining two runs of chunks is joining each and concatenating, so order is kept. */
  lemma {:induction false} CombineAppend(a: seq<Option<Chunk>>, b: seq<Option<Chunk>>)
    requires Combine(a).Some? && Combine(b).Some?
    ensures Combine(a + b) == Some(Combine(a).value + Combine(b).value)
  {
    if a == [] {
      assert a + b == b;
      assert Combine(a).value + Combine(b).value == Combine(b).value;
    } else {
      assert (a + b)[0] == a[0];
      assert (a + b)[1..] == a[1..] + b;
      CombineAppend(a[1..], b);
      var head, x, y := ChunkText(a[0].value), Combine(a[1..]).value, Combine(b).value;
      assert Combine(a + b) == Some(head + (x + y));
      assert head + (x + y) == (head + x) + y;
    }
  }

  predicate StartsWith(s: string, prefix: string) {
    |prefix| <= |s| && s[..|prefix|] == prefix
  }

  /** The regex `/```json|```/g` with replacement "": at each position "```json" is tried before "```". */
  function StripFences(s: string): (r: string)
    ensures |r| <= |s|
    decreases |s|
  {
    if StartsWith(s, JsonFence) then StripFences(s[|JsonFence|..])
    else if StartsWith(s, Fence) then StripFences(s[|Fence|..])
    else if s == [] then []
    else [s[0]] + StripFences(s[1..])
  }

  /** Three backticks start at position `i` of `t`. */
  predicate FenceAt(t: string, i: nat) {
    i + 3 <= |t| && t[i] == '`' && t[i + 1] == '`' && t[i + 2] == '`'
  }

  /** No "```" occurs anywhere in `t`. */
  predicate FenceFree(t: string) {
    forall i: nat | i < |t| :: !FenceAt(t, i)
  }

  lemma StartsWithFenceAt(s: string)
    ensures StartsWith(s, Fence) <==> FenceAt(s, 0)
    ensures StartsWith(s, JsonFence) ==> FenceAt(s, 0)
  {
    if FenceAt(s, 0) {
      assert s[..3] == Fence;
    }
    if StartsWith(s, JsonFence) {
      assert s[0] == JsonFence[0] && s[1] == JsonFence[1] && s[2] == JsonFence[2];
    }
  }

  /** Where no fence starts, the scanner keeps the character and moves on. */
  lemma KeepsHead(s: string)
    requires s != [] && !FenceAt(s, 0)
    ensures StripFences(s) == [s[0]] + StripFences(s[1..])
  {
    StartsWithFenceAt(s);
  }

  /** A character that is not a backtick is kept at the head of the output. */
  lemma PlainHead(s: string)
    requires s != [] && s[0] != '`'
    ensures |StripFences(s)| > 0 && StripFences(s)[0] == s[0]
  {
    KeepsHead(s);
  }

  lemma FenceFreeTail(t: string)
    requires t != [] && FenceFree(t)
    ensures FenceFree(t[1..])
  {
    forall i: nat ensures !FenceAt(t[1..], i) {
      assert FenceAt(t[1..], i) ==> FenceAt(t, i + 1);
    }
  }

  /** No "```" survives the strip. */
  lemma {:induction false} StripLeavesNoFence(s: string)
    ensures FenceFree(StripFences(s))
    decreases |s|
  {
    StartsWithFenceAt(s);
    if StartsWith(s, JsonFence) {
      StripLeavesNoFence(s[|JsonFence|..]);
    } else if StartsWith(s, Fence) {
      StripLeavesNoFence(s[|Fence|..]);
    } else if s != [] {
      var rest := StripFences(s[1..]);
      var r := [s[0]] + rest;
      assert StripFences(s) == r;
      StripLeavesNoFence(s[1..]);
      // Only position 0 is new: a kept backtick is not followed by two more.
      if s[0] == '`' && |s| > 1 {
        if s[1] != '`' {
          PlainHead(s[1..]);
        } else {
          assert !FenceAt(s[1..], 0);
          KeepsHead(s[1..]);
          assert rest == [s[1]] + StripFences(s[2..]);
          if |s| > 2 {
            assert s[2] != '`';
            PlainHead(s[2..]);
            assert r[2] == s[2];
          }
        }
      }
      assert !FenceAt(r, 0);
      forall i: nat ensures !FenceAt(r, i) {
        if i > 0 {
          assert FenceAt(r, i) ==> FenceAt(rest, i - 1);
        }
      }
    }
  }

  /** Text without "```" is left unchanged. */
  lemma {:induction false} FenceFreeUnchanged(t: string)
    requires FenceFree(t)
    ensures StripFences(t) == t
  {
    if t != [] {
      assert !FenceAt(t, 0);
      KeepsHead(t);
      FenceFreeTail(t);
      FenceFreeUnchanged(t[1..]);
    }
  }

  /** Stripping twice is stripping once. */
  lemma StripIdempotent(s: string)
    ensures StripFences(StripFences(s)) == StripFences(s)
  {
    StripLeavesNoFence(s);
    FenceFreeUnchanged(StripFences(s));
  }

  /** A closing fence after fence-free text is removed and nothing else is. */
  lemma {:induction false} StripClosingFence(t: string)
    requires FenceFree(t)
    ensures StripFences(t + Fence) == t
  {
    var s := t + Fence;
    StartsWithFenceAt(s);
    if t == [] {
      assert s == Fence && s[|Fence|..] == [];
    } else if t == "`" {
      assert s == "````" && StartsWith(s, Fence) && !StartsWith(s, JsonFence);
      assert s[|Fence|..] == "`";
      KeepsHead("`");
    } else if t == "``" {
      assert s == "`````" && StartsWith(s, Fence) && !StartsWith(s, JsonFence);
      assert s[|Fence|..] == "``";
      KeepsHead("``");
      KeepsHead("`");
    } else {
      assert !FenceAt(s, 0) by {
        assert !FenceAt(t, 0);
        if |t| == 1 { assert t[0] != '`'; }
      }
      KeepsHead(s);
      assert s[1..] == t[1..] + Fence;
      FenceFreeTail(t);
      StripClosingFence(t[1..]);
    }
  }

  /** A reply wrapped as a markdown JSON block comes out as the bare text inside. */
  lemma UnwrapsJsonBlock(t: string)
    requires FenceFree(t)
    ensures StripFences(JsonFence + t + Fence) == t
  {
    var s := JsonFence + t + Fence;
    assert StartsWith(s, JsonFence);
    assert s[|JsonFence|..] == t + Fence;
    StripClosingFence(t);
  }
}
