/** What the extension's two tag prompts (the content script and the React
    component) share: the page details they carry, the comma-list parsing
    they apply to what the user typed — split on commas, trim every piece,
    drop the empty ones — and the countdown line they show. */
module TagList {
  import opened Wrappers
  import opened JsString
  import opened Seqs

  /** `{ url?, title?, selectionText? }`: an absent key is `None`. */
  datatype PageDetails = PageDetails(url: Option<string>, title: Option<string>, selectionText: Option<string>)

  /** `pieces.map(tag => tag.trim())`. */
  function TrimAll(pieces: seq<string>): (r: seq<string>)
    ensures |r| == |pieces|
    ensures forall k :: 0 <= k < |r| ==> r[k] == Trim(pieces[k])
  {
    seq(|pieces|, k requires 0 <= k < |pieces| => Trim(pieces[k]))
  }

  /** JavaScript truthiness of a string. */
  predicate NonEmpty(t: string) {
    t != ""
  }

  /** A well-formed tag: non-empty, no surrounding whitespace, no comma. */
  predicate IsTag(t: string) {
    t != "" && IsTrimmed(t) && ',' !in t
  }

  /** Trimming pieces that are already trimmed changes nothing. */
  lemma TrimAllTrimmed(pieces: seq<string>)
    requires forall k :: 0 <= k < |pieces| ==> IsTrimmed(pieces[k])
    ensures TrimAll(pieces) == pieces
  {
    forall k | 0 <= k < |pieces| ensures TrimAll(pieces)[k] == pieces[k] {
      TrimTrimmed(pieces[k]);
    }
  }

  /** Trimmed separator-free pieces are trimmed and separator-free. */
  lemma TrimAllPieces(pieces: seq<string>, sep: char)
    requires forall k :: 0 <= k < |pieces| ==> sep !in pieces[k]
    ensures forall x :: x in TrimAll(pieces) ==> IsTrimmed(x) && sep !in x
  {
    var trimmed := TrimAll(pieces);
    forall x | x in trimmed ensures IsTrimmed(x) && sep !in x {
      var k :| 0 <= k < |trimmed| && trimmed[k] == x;
      TrimKeepsAbsent(pieces[k], sep);
    }
  }

  /** `input.split(",").map(tag => tag.trim()).filter(tag => tag)`: every tag it
      yields is well formed; the tags keep the order of the trimmed pieces
      they come from; and every non-empty trimmed piece is kept as often as it
      occurs, while the empty ones are dropped. Together the last two fix the
      result for every input. */
  function ParseTags(input: string): (tags: seq<string>)
    ensures forall k :: 0 <= k < |tags| ==> IsTag(tags[k])
    ensures IsSubsequence(tags, TrimAll(Split(input, ',')))
    ensures var pieces := TrimAll(Split(input, ','));
            forall k :: 0 <= k < |pieces| ==>
              multiset(tags)[pieces[k]] == if pieces[k] != "" then multiset(pieces)[pieces[k]] else 0
  {
    var trimmed := TrimAll(Split(input, ','));
    TrimAllPieces(Split(input, ','), ',');
    FilterIsSubsequence(trimmed, NonEmpty);
    FilterCounts(trimmed, NonEmpty);
    Filter(trimmed, NonEmpty)
  }

  /** An empty input yields no tags. */
  lemma ParseEmpty()
    ensures ParseTags("") == []
  {
    var empty: string := [];
    assert Split(empty, ',') == [empty];
    TrimAllTrimmed([empty]);
    FilterNone([empty], NonEmpty);
  }

  /** Whitespace around the pieces goes and empty pieces are dropped. */
  lemma ParseUntidy()
    ensures ParseTags(" news , ,dafny ") == ["news", "dafny"]
  {
    UntidySplit();
    UntidyPiecesTrim();
    var trimmed := ["news", "", "dafny"];
    assert TrimAll([" news ", " ", "dafny "]) == trimmed;
    UntidyFilter(trimmed);
  }

  lemma UntidySplit()
    ensures Split(" news , ,dafny ", ',') == [" news ", " ", "dafny "]
  {
    var pieces := [" news ", " ", "dafny "];
    assert Join(pieces[1..][1..], ',') == "dafny ";
    assert Join(pieces[1..], ',') == " ,dafny ";
    assert Join(pieces, ',') == " news , ,dafny ";
    SplitJoin(pieces, ',');
  }

  lemma UntidyFilter(trimmed: seq<string>)
    requires trimmed == ["news", "", "dafny"]
    ensures Filter(trimmed, NonEmpty) == ["news", "dafny"]
  {
    assert trimmed[1..][1..][1..] == [];
    assert Filter(trimmed[1..][1..], NonEmpty) == ["dafny"];
    assert Filter(trimmed[1..], NonEmpty) == ["dafny"];
  }

  lemma UntidyPiecesTrim()
    ensures Trim(" news ") == "news" && Trim(" ") == "" && Trim("dafny ") == "dafny"
  {
    var a := " news ";
    assert SkipWhitespace(a, 1) == 1 && SkipWhitespace(a, 0) == 1;
    assert SkipWhitespaceBack(a, 5) == 5 && SkipWhitespaceBack(a, 6) == 5;
    assert a[1..5] == "news";
    var b := "dafny ";
    assert SkipWhitespace(b, 0) == 0;
    assert SkipWhitespaceBack(b, 5) == 5 && SkipWhitespaceBack(b, 6) == 5;
    assert b[0..5] == "dafny";
    assert AllWhitespace(" ");
  }

  /** Parsing inverts joining with commas: a list of well-formed tags written as
      `a,b,c` parses back to itself. */
  lemma ParseJoin(tags: seq<string>)
    requires forall k :: 0 <= k < |tags| ==> IsTag(tags[k])
    ensures ParseTags(Join(tags, ',')) == tags
  {
    if tags == [] {
      ParseEmpty();
    } else {
      SplitJoin(tags, ',');
      TrimAllTrimmed(tags);
      FilterAll(tags, NonEmpty);
    }
  }

  const AutoSavingLead := "Auto-saving in "
  const AutoSavingTail := "s..."

  /** `line` is the countdown line for `n`: the lead-in, decimal digits that
      read back as `n`, and the tail. */
  predicate ShowsCount(line: string, n: nat) {
    && |line| >= |AutoSavingLead| + |AutoSavingTail|
    && line[..|AutoSavingLead|] == AutoSavingLead
    && line[|line| - |AutoSavingTail|..] == AutoSavingTail
    && var digits := line[|AutoSavingLead|..|line| - |AutoSavingTail|];
       && (forall k :: 0 <= k < |digits| ==> '0' <= digits[k] <= '9')
       && DigitsValue(digits) == n
  }

  /** `` `Auto-saving in ${countdown}s...` ``. */
  function AutoSavingText(countdown: nat): (r: string)
    ensures ShowsCount(r, countdown)
  {
    var digits := DecimalString(countdown);
    var r := AutoSavingLead + digits + AutoSavingTail;
    assert r[|AutoSavingLead|..|r| - |AutoSavingTail|] == digits;
    DecimalRoundTrip(countdown);
    r
  }
}
