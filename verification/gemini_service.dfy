/** Post-processing of the generator's replies (services/geminiService.ts):
    the markdown code-fence extractor shared by generation and repair, the
    data-URL prefix strip on the uploaded sketch, and the audit reply's
    fail-open fallback. The generator itself is opaque: its reply text, or
    its rejection, is an input. */
module GeminiService {
  import opened JsString

  const Fence: string := "```"
  const HtmlFence: string := "```html"

  // ---------------------------------------------------------------------------
  // The regular expressions /```html\n?([\s\S]*?)\n?```/ and /```\n?([\s\S]*?)\n?```/

  /** The tail `\n?```` of the pattern can match right where the lazy group
      ends at `e`. */
  predicate ClosesAt(s: string, e: int) {
    || OccursAt(s, Fence, e)
    || (0 <= e < |s| && s[e] == '\n' && OccursAt(s, Fence, e + 1))
  }

  /** One way for `opener\n?([\s\S]*?)\n?```` to match `s`: the opener starts at
      `p` and the captured group is `s[b..e]`. */
  predicate IsMatch(s: string, opener: string, p: int, b: int, e: int) {
    && OccursAt(s, opener, p)
    && (b == p + |opener| || (b == p + |opener| + 1 && b <= |s| && s[p + |opener|] == '\n'))
    && b <= e
    && ClosesAt(s, e)
  }

  /** The order in which a backtracking engine tries matches: leftmost start
      first, then the greedy `\n?` taking the newline before leaving it, then the
      lazy group shortest first. The closing `\n?` does not affect the group. */
  predicate TriedBefore(p: int, b: int, e: int, p': int, b': int, e': int) {
    p < p' || (p == p' && (b > b' || (b == b' && e <= e')))
  }

  /** The first block `opener … fence`: the first opener in the text starts at
      `start`, its contents are `s[lo..hi]`, and the first fence after it starts at
      `hi`. */
  datatype Block = Block(start: nat, lo: nat, hi: nat)

  function FirstBlock(s: string, opener: string): (r: Option<Block>)
    ensures r.Some? ==>
      && OccursAt(s, opener, r.value.start)
      && r.value.lo == r.value.start + |opener| <= r.value.hi
      && OccursAt(s, Fence, r.value.hi)
      && (forall k :: 0 <= k < r.value.start ==> !OccursAt(s, opener, k))
      && (forall x :: r.value.lo <= x < r.value.hi ==> !OccursAt(s, Fence, x))
    ensures r.None? ==>
      forall p, f :: OccursAt(s, opener, p) && p + |opener| <= f ==> !OccursAt(s, Fence, f)
  {
    match IndexOf(s, opener, 0)
    case None => None
    case Some(p) =>
      match IndexOf(s, Fence, p + |opener|)
      case None => None
      case Some(f) => Some(Block(p, p + |opener|, f))
  }

  /** The start of the match and the bounds of its captured group. */
  datatype Match = Match(start: nat, lo: nat, hi: nat)

  /** `s.match(opener\n?([\s\S]*?)\n?```)`: from the first block, skip one newline
      after the opener and leave out one newline before the closing fence. */
  function FenceMatch(s: string, opener: string): (r: Option<Match>)
    ensures r.Some? ==> r.value.lo <= r.value.hi <= |s|
  {
    match FirstBlock(s, opener)
    case None => None
    case Some(blk) =>
      var b := if blk.lo < |s| && s[blk.lo] == '\n' then blk.lo + 1 else blk.lo;
      assert b == blk.lo + 1 ==> !OccursAt(s, Fence, blk.lo) by {
        if b == blk.lo + 1 {
          NewlineIsNoFence(s, blk.lo);
        }
      }
      var e := if blk.hi > b && s[blk.hi - 1] == '\n' then blk.hi - 1 else blk.hi;
      Some(Match(blk.start, b, e))
  }

  /** A fence cannot start on a newline. */
  lemma NewlineIsNoFence(s: string, a: nat)
    requires a < |s| && s[a] == '\n'
    ensures !OccursAt(s, Fence, a)
  {
  }

  /** Within a found block, where the group starts and ends, and that no shorter
      group closes. */
  lemma GroupBounds(s: string, blk: Block, b: nat, e: nat)
    requires blk.lo <= blk.hi && OccursAt(s, Fence, blk.hi)
    requires forall x :: blk.lo <= x < blk.hi ==> !OccursAt(s, Fence, x)
    requires b == if blk.lo < |s| && s[blk.lo] == '\n' then blk.lo + 1 else blk.lo
    requires e == if blk.hi > b && s[blk.hi - 1] == '\n' then blk.hi - 1 else blk.hi
    ensures blk.lo <= b <= e <= blk.hi
    ensures AllSpace(s[blk.lo..b]) && AllSpace(s[e..blk.hi])
    ensures ClosesAt(s, e)
    ensures forall e' :: b <= e' < e ==> !ClosesAt(s, e')
  {
    if b == blk.lo + 1 {
      NewlineIsNoFence(s, blk.lo);
    }
    if e == blk.hi - 1 {
      assert OccursAt(s, Fence, e + 1);
    }
    forall e' | b <= e' < e
      ensures !ClosesAt(s, e')
    {
      assert !OccursAt(s, Fence, e');
      if e' + 1 < blk.hi {
        assert !OccursAt(s, Fence, e' + 1);
      }
    }
  }

  /** `FenceMatch` returns exactly the match JavaScript's regular-expression
      engine reports: a match whenever the pattern can match at all, and then the
      first one in backtracking order. */
  lemma FenceMatchIsJsMatch(s: string, opener: string)
    ensures FenceMatch(s, opener).None? ==> forall p, b, e :: !IsMatch(s, opener, p, b, e)
    ensures FenceMatch(s, opener).Some? ==>
      var m := FenceMatch(s, opener).value;
      && IsMatch(s, opener, m.start, m.lo, m.hi)
      && forall p, b, e :: IsMatch(s, opener, p, b, e) ==> TriedBefore(m.start, m.lo, m.hi, p, b, e)
  {
    var r := FirstBlock(s, opener);
    if r.Some? {
      var blk := r.value;
      var b := if blk.lo < |s| && s[blk.lo] == '\n' then blk.lo + 1 else blk.lo;
      var e := if blk.hi > b && s[blk.hi - 1] == '\n' then blk.hi - 1 else blk.hi;
      GroupBounds(s, blk, b, e);
      assert FenceMatch(s, opener) == Some(Match(blk.start, b, e));
      forall p', b', e' | IsMatch(s, opener, p', b', e')
        ensures TriedBefore(blk.start, b, e, p', b', e')
      {
        assert blk.start <= p';
      }
    }
  }

  // ---------------------------------------------------------------------------
  // Code extraction (lines 53-57 for generation, 148-150 for repair)

  /** `codeMatch ? codeMatch[1].trim() : textOutput.trim()`, trying the
      ```html pattern first and the bare ``` pattern second. */
  function ExtractCode(text: string): (code: string)
    ensures IsTrimmed(code)
  {
    match FenceMatch(text, HtmlFence)
    case Some(m) => Trim(text[m.lo..m.hi])
    case None =>
      match FenceMatch(text, Fence)
      case Some(m) => Trim(text[m.lo..m.hi])
      case None => Trim(text)
  }

  /** The extraction in plain words: the trimmed contents of the first closed
      ```html block; failing that, of the first closed ``` block (language tag
      included); failing that, the whole text trimmed. */
  function PlainExtract(text: string): string {
    match FirstBlock(text, HtmlFence)
    case Some(blk) => Trim(text[blk.lo..blk.hi])
    case None =>
      match FirstBlock(text, Fence)
      case Some(blk) => Trim(text[blk.lo..blk.hi])
      case None => Trim(text)
  }

  /** The regex's group and the block's contents differ only by the newlines
      the pattern skips, which `trim` removes anyway. */
  lemma FenceMatchTrimmed(text: string, opener: string)
    ensures FenceMatch(text, opener).Some? <==> FirstBlock(text, opener).Some?
    ensures FenceMatch(text, opener).Some? ==>
      var m := FenceMatch(text, opener).value;
      var blk := FirstBlock(text, opener).value;
      Trim(text[m.lo..m.hi]) == Trim(text[blk.lo..blk.hi])
  {
    var r := FirstBlock(text, opener);
    if r.Some? {
      var blk := r.value;
      var m := FenceMatch(text, opener).value;
      GroupTrimmed(text, blk, m.lo, m.hi);
    }
  }

  lemma GroupTrimmed(s: string, blk: Block, b: nat, e: nat)
    requires blk.lo <= blk.hi && OccursAt(s, Fence, blk.hi)
    requires forall x :: blk.lo <= x < blk.hi ==> !OccursAt(s, Fence, x)
    requires b == if blk.lo < |s| && s[blk.lo] == '\n' then blk.lo + 1 else blk.lo
    requires e == if blk.hi > b && s[blk.hi - 1] == '\n' then blk.hi - 1 else blk.hi
    ensures b <= e <= |s| && Trim(s[b..e]) == Trim(s[blk.lo..blk.hi])
  {
    GroupBounds(s, blk, b, e);
    assert s[blk.lo..blk.hi] == s[blk.lo..b] + s[b..e] + s[e..blk.hi];
    TrimPadded(s[blk.lo..b], s[b..e], s[e..blk.hi]);
  }

  /** Extraction equals its plain reading on every text. */
  lemma ExtractIsPlain(text: string)
    ensures ExtractCode(text) == PlainExtract(text)
  {
    FenceMatchTrimmed(text, HtmlFence);
    FenceMatchTrimmed(text, Fence);
  }

  /** A closed ```html block wins: the result is its trimmed contents, whatever
      follows and whatever other fences the text holds. */
  lemma HtmlBlockExtracted(text: string, p: nat, f: nat)
    requires IndexOf(text, HtmlFence, 0) == Some(p)
    requires IndexOf(text, Fence, p + 7) == Some(f)
    ensures ExtractCode(text) == Trim(text[p + 7..f])
  {
    ExtractIsPlain(text);
    assert FirstBlock(text, HtmlFence) == Some(Block(p, p + 7, f));
  }

  /** Without a closed ```html block, the first closed ``` block is used, its
      language tag included. */
  lemma GenericBlockExtracted(text: string, p: nat, f: nat)
    requires FirstBlock(text, HtmlFence).None?
    requires IndexOf(text, Fence, 0) == Some(p)
    requires IndexOf(text, Fence, p + 3) == Some(f)
    ensures ExtractCode(text) == Trim(text[p + 3..f])
  {
    ExtractIsPlain(text);
    assert FirstBlock(text, Fence) == Some(Block(p, p + 3, f));
  }

  /** Without any closed block, the whole text is returned trimmed. */
  lemma UnfencedTextTrimmed(text: string)
    requires FirstBlock(text, HtmlFence).None? && FirstBlock(text, Fence).None?
    ensures ExtractCode(text) == Trim(text)
  {
    ExtractIsPlain(text);
  }

  /** What `generateCodeFromSketch` and `fixFindingsFromAudit` resolve to, given
      the generator's reply: its text (missing text read as ""), extracted;
      a rejected call propagates its error. */
  function CodeFromReply(reply: Settled<Option<string>>): (r: Settled<string>)
    ensures r.Resolved? <==> reply.Resolved?
    ensures reply.Rejected? ==> r == Rejected(reply.message)
    ensures r.Resolved? ==> IsTrimmed(r.value)
    ensures reply.Resolved? && !TruthyOpt(reply.value) ==> r == Resolved("")
    ensures reply.Resolved? && reply.value.Some? ==> r == Resolved(PlainExtract(reply.value.value))
  {
    match reply
    case Rejected(msg) => Rejected(msg)
    case Resolved(text) =>
      ExtractIsPlain(text.GetOr(""));
      Resolved(ExtractCode(text.GetOr("")))
  }

  // ---------------------------------------------------------------------------
  // The sketch payload (line 33)

  /** `base64Image.split(',')[1]`: the piece after the first comma, up to a
      second comma if there is one; `undefined` when there is no comma. */
  function ImagePayload(dataUrl: string): (data: Option<string>)
    ensures data.Some? <==> ',' in dataUrl
    ensures data.Some? ==> ',' !in data.value && |data.value| < |dataUrl|
  {
    var parts := Split(dataUrl, ',');
    if |parts| >= 2 then
      assert |Join(parts, ',')| > |parts[1]|;
      Some(parts[1])
    else None
  }

  /** A data URL `header,body` with a comma-free header sends exactly the
      first comma-free piece of `body`; all of `body` when it has no comma. */
  lemma PayloadAfterFirstComma(header: string, body: string)
    requires ',' !in header
    ensures ImagePayload(header + "," + body) == Some(Split(body, ',')[0])
    ensures ',' !in body ==> ImagePayload(header + "," + body) == Some(body)
  {
    var parts := [header] + Split(body, ',');
    assert parts[1..] == Split(body, ',');
    assert Join(parts, ',') == header + "," + body;
    SplitJoin(parts, ',');
    if ',' !in body {
      SplitFree(body, ',');
    }
  }

  // ---------------------------------------------------------------------------
  // The audit reply (lines 108-112)

  /** One audit finding, as the response schema declares it (`name` is the
      schema's `label` field, a reserved word in Dafny). */
  datatype Checkpoint = Checkpoint(name: string, status: string, passed: bool)

  /** What `JSON.parse` makes of a reply: it throws, or it yields a value whose
      `checkpoints` field is either a (schema-conforming) array or falsy. */
  datatype Parsed = Unparseable | Parsed(checkpoints: Option<seq<Checkpoint>>)

  const EmptyAudit: string := "{\"checkpoints\": []}"

  /** The `checkpoints` of what `verifyLiveDeployment` resolves to: a missing or
      empty reply parses the literal `{"checkpoints": []}`, and a reply that does
      not parse fails open to no checkpoints. */
  function AuditCheckpoints(text: Option<string>, parse: string -> Parsed): (r: Option<seq<Checkpoint>>)
    requires parse(EmptyAudit) == Parsed(Some([]))
    ensures !TruthyOpt(text) ==> r == Some([])
    ensures TruthyOpt(text) && parse(text.value).Unparseable? ==> r == Some([])
    ensures TruthyOpt(text) && parse(text.value).Parsed? ==> r == parse(text.value).checkpoints
  {
    var source := if TruthyOpt(text) then text.value else EmptyAudit;
    match parse(source)
    case Unparseable => Some([])
    case Parsed(cps) => cps
  }
}
