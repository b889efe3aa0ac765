/** The output filter of backend/safety_validator.py: 38 fixed patterns in five
    ordered categories; every pattern found in the lower-cased text yields one
    violation, and the text is safe when there is none. Regular-expression search
    is the parameter `matches`: `matches(p, t)` holds when `re.search(p, t)` finds a match. */
module SafetyValidator {
  import opened Wrappers
  import opened Models
  import Text
  import Seqs

  /** One named category of patterns. */
  datatype Block = Block(category: string, patterns: seq<string>)

  const BlockSeverity: seq<string> := [
    "\\bdangerous(ly)?\\b", "\\blife-threatening\\b", "\\bcritical condition\\b",
    "\\bemergency\\b", "\\bsevere risk\\b",
    "no need to worry", "nothing to worry",
    "you're fine", "you are fine"]

  const BlockDiagnosis: seq<string> := [
    "this indicates you have", "this means you have", "diagnosed with",
    "suggests cancer", "heart failure", "likely due to",
    "caused by", "prognosis", "will lead to"]

  const BlockTreatment: seq<string> := [
    "\\btake\\s+medications?", "\\bstart\\s+medications?", "\\bstop\\s+medications?",
    "\\bdosage\\b", "\\bprescription\\b",
    "seek immediate care", "go to er",
    "requires evaluation", "requires monitoring", "must be treated"]

  const BlockLifestyle: seq<string> := [
    "balanced diet", "healthy lifestyle", "avoid foods", "drink more water", "reduce salt"]

  const BlockPhrasing: seq<string> := [
    "warrants clinician review",
    "affect my health",
    "what does .* mean",
    "no issues", "no problems"]

  /** `ALL_BLOCKS`, in the order they are checked. */
  const AllBlocks: seq<Block> := [
    Block("SEVERITY", BlockSeverity),
    Block("DIAGNOSIS", BlockDiagnosis),
    Block("TREATMENT", BlockTreatment),
    Block("LIFESTYLE", BlockLifestyle),
    Block("PHRASING", BlockPhrasing)]

  /** The dictionary `validate_output` returns. */
  datatype Validation = Validation(isSafe: bool, violations: seq<Violation>, sanitizedText: Option<string>)

  /** The possible violations of one category, in pattern order. */
  function Candidates(category: string, patterns: seq<string>): (r: seq<Violation>)
    ensures |r| == |patterns|
    ensures forall k :: 0 <= k < |patterns| ==> r[k] == Violation(category, patterns[k])
  {
    if patterns == [] then []
    else Candidates(category, patterns[..|patterns| - 1]) + [Violation(category, patterns[|patterns| - 1])]
  }

  /** How many patterns the blocks list together. */
  function PatternCount(blocks: seq<Block>): nat {
    if blocks == [] then 0 else PatternCount(blocks[..|blocks| - 1]) + |blocks[|blocks| - 1].patterns|
  }

  /** Every possible violation of a table, category by category: one per listed pattern,
      the first block's first. */
  function Flatten(blocks: seq<Block>): (r: seq<Violation>)
    ensures |r| == PatternCount(blocks)
  {
    if blocks == [] then []
    else
      var b := blocks[|blocks| - 1];
      Flatten(blocks[..|blocks| - 1]) + Candidates(b.category, b.patterns)
  }

  /** The possible violations whose pattern is found in `text`, in their order. */
  function Filter(xs: seq<Violation>, text: string, matches: (string, string) -> bool): (r: seq<Violation>)
    ensures |r| <= |xs|
    decreases |xs|
  {
    if xs == [] then []
    else
      var x := xs[|xs| - 1];
      Filter(xs[..|xs| - 1], text, matches) + (if matches(x.matched, text) then [x] else [])
  }

  /** Every kept violation is one of the inputs and its pattern is found. */
  lemma {:induction false} FilterSound(xs: seq<Violation>, text: string, matches: (string, string) -> bool)
    ensures forall k :: 0 <= k < |Filter(xs, text, matches)| ==>
              Filter(xs, text, matches)[k] in xs && matches(Filter(xs, text, matches)[k].matched, text)
    decreases |xs|
  {
    if xs != [] {
      var init := xs[..|xs| - 1];
      FilterSound(init, text, matches);
      assert forall v :: v in init ==> v in xs;
    }
  }

  /** A possible violation is kept exactly when its pattern is found. */
  lemma {:induction false} FilterHas(xs: seq<Violation>, text: string, matches: (string, string) -> bool, v: Violation)
    ensures v in Filter(xs, text, matches) <==> v in xs && matches(v.matched, text)
    decreases |xs|
  {
    if xs != [] {
      var init, x := xs[..|xs| - 1], xs[|xs| - 1];
      FilterHas(init, text, matches, v);
      assert xs == init + [x];
    }
  }

  /** The violation list of `validate_output`: the table's entries found in the lower-cased text. */
  function Violations(text: string, matches: (string, string) -> bool): (r: seq<Violation>)
    ensures |r| <= PatternCount(AllBlocks)
    ensures forall k :: 0 <= k < |r| ==> r[k] in Flatten(AllBlocks) && matches(r[k].matched, Text.Lower(text))
  {
    FilterSound(Flatten(AllBlocks), Text.Lower(text), matches);
    Filter(Flatten(AllBlocks), Text.Lower(text), matches)
  }

  lemma CandidatesSnoc(category: string, patterns: seq<string>, j: nat)
    requires j < |patterns|
    ensures Candidates(category, patterns[..j + 1]) == Candidates(category, patterns[..j]) + [Violation(category, patterns[j])]
  {
    assert patterns[..j + 1][..j] == patterns[..j];
  }

  lemma FlattenSnoc(blocks: seq<Block>, i: nat)
    requires i < |blocks|
    ensures Flatten(blocks[..i + 1]) == Flatten(blocks[..i]) + Candidates(blocks[i].category, blocks[i].patterns)
  {
    assert blocks[..i + 1][..i] == blocks[..i];
  }

  lemma FilterSnoc(xs: seq<Violation>, x: Violation, text: string, matches: (string, string) -> bool)
    ensures Filter(xs + [x], text, matches) == Filter(xs, text, matches) + (if matches(x.matched, text) then [x] else [])
  {
    assert (xs + [x])[..|xs|] == xs;
  }

  /** `validate_output(text)`. */
  method ValidateOutput(text: string, matches: (string, string) -> bool) returns (v: Validation)
    ensures v.violations == Violations(text, matches)
    ensures v.isSafe <==> v.violations == []
    ensures v.sanitizedText == if v.isSafe then Some(text) else None
  {
    var textLower := Text.Lower(text);
    var violations := Scan(AllBlocks, textLower, matches);
    var safe := |violations| == 0;
    v := Validation(safe, violations, if safe then Some(text) else None);
  }

  /** The nested loop of `validate_output`: for each category in order, for each of its
      patterns in order, one violation when the pattern is found. */
  method Scan(blocks: seq<Block>, textLower: string, matches: (string, string) -> bool) returns (violations: seq<Violation>)
    ensures violations == Filter(Flatten(blocks), textLower, matches)
  {
    violations := [];
    var i := 0;
    while i < |blocks|
      invariant 0 <= i <= |blocks|
      invariant violations == Filter(Flatten(blocks[..i]), textLower, matches)
    {
      var category, regexes := blocks[i].category, blocks[i].patterns;
      ghost var done := Flatten(blocks[..i]);
      assert done + Candidates(category, regexes[..0]) == done;
      var j := 0;
      while j < |regexes|
        invariant 0 <= j <= |regexes|
        invariant violations == Filter(done + Candidates(category, regexes[..j]), textLower, matches)
      {
        var pattern := regexes[j];
        CandidatesSnoc(category, regexes, j);
        Seqs.ConcatAssoc(done, Candidates(category, regexes[..j]), [Violation(category, pattern)]);
        FilterSnoc(done + Candidates(category, regexes[..j]), Violation(category, pattern), textLower, matches);
        if matches(pattern, textLower) {
          violations := violations + [Violation(category, pattern)];
        }
        j := j + 1;
      }
      assert regexes[..j] == regexes;
      FlattenSnoc(blocks, i);
      i := i + 1;
    }
    assert blocks[..i] == blocks;
  }

  /** A possible violation belongs to the table exactly when its rule is a category
      whose list holds its pattern. */
  lemma {:induction false} FlattenHas(blocks: seq<Block>, v: Violation)
    ensures v in Flatten(blocks) <==>
            exists i :: 0 <= i < |blocks| && blocks[i].category == v.rule && v.matched in blocks[i].patterns
    decreases |blocks|
  {
    if blocks != [] {
      var init, b := blocks[..|blocks| - 1], blocks[|blocks| - 1];
      FlattenHas(init, v);
      var c := Candidates(b.category, b.patterns);
      CandidatesHas(b.category, b.patterns, v);
      assert Flatten(blocks) == Flatten(init) + c;
      if v in Flatten(blocks) {
        if v in Flatten(init) {
          var i :| 0 <= i < |init| && init[i].category == v.rule && v.matched in init[i].patterns;
          assert blocks[i] == init[i];
        } else {
          assert blocks[|blocks| - 1].category == v.rule && v.matched in blocks[|blocks| - 1].patterns;
        }
      }
      if exists i :: 0 <= i < |blocks| && blocks[i].category == v.rule && v.matched in blocks[i].patterns {
        var i :| 0 <= i < |blocks| && blocks[i].category == v.rule && v.matched in blocks[i].patterns;
        if i < |init| {
          assert init[i] == blocks[i];
          assert v in Flatten(init);
        } else {
          assert v in c;
        }
      }
    }
  }

  /** A possible violation of one category is that category with one of its patterns. */
  lemma CandidatesHas(category: string, patterns: seq<string>, v: Violation)
    ensures v in Candidates(category, patterns) <==> category == v.rule && v.matched in patterns
  {
    var c := Candidates(category, patterns);
    if v in c {
      var k :| 0 <= k < |c| && c[k] == v;
    }
    if category == v.rule && v.matched in patterns {
      var k :| 0 <= k < |patterns| && patterns[k] == v.matched;
      assert c[k] == v;
    }
  }

  /** A violation is reported exactly when its pattern is in its category's list and
      is found in the lower-cased text. */
  lemma ViolationIff(text: string, matches: (string, string) -> bool, v: Violation)
    ensures v in Violations(text, matches) <==>
            (exists i :: 0 <= i < |AllBlocks| && AllBlocks[i].category == v.rule && v.matched in AllBlocks[i].patterns) &&
            matches(v.matched, Text.Lower(text))
  {
    FlattenHas(AllBlocks, v);
    FilterHas(Flatten(AllBlocks), Text.Lower(text), matches, v);
  }

  /** The patterns of a list of violations. */
  function Patterns(vs: seq<Violation>): (r: seq<string>)
    ensures |r| == |vs|
    ensures forall k :: 0 <= k < |vs| ==> r[k] == vs[k].matched
  {
    seq(|vs|, k requires 0 <= k < |vs| => vs[k].matched)
  }

  /** Within each category no pattern is listed twice, and no two categories share one. */
  lemma SeverityDistinct() ensures Seqs.Distinct(BlockSeverity) {}
  lemma DiagnosisDistinct() ensures Seqs.Distinct(BlockDiagnosis) {}
  lemma TreatmentDistinct() ensures Seqs.Distinct(BlockTreatment) {}
  lemma LifestyleDistinct() ensures Seqs.Distinct(BlockLifestyle) {}
  lemma PhrasingDistinct() ensures Seqs.Distinct(BlockPhrasing) {}
  lemma SeverityDiagnosis() ensures Seqs.Disjoint(BlockSeverity, BlockDiagnosis) {}
  lemma SeverityTreatment() ensures Seqs.Disjoint(BlockSeverity, BlockTreatment) {}
  lemma SeverityLifestyle() ensures Seqs.Disjoint(BlockSeverity, BlockLifestyle) {}
  lemma SeverityPhrasing() ensures Seqs.Disjoint(BlockSeverity, BlockPhrasing) {}
  lemma DiagnosisTreatment() ensures Seqs.Disjoint(BlockDiagnosis, BlockTreatment) {}
  lemma DiagnosisLifestyle() ensures Seqs.Disjoint(BlockDiagnosis, BlockLifestyle) {}
  lemma DiagnosisPhrasing() ensures Seqs.Disjoint(BlockDiagnosis, BlockPhrasing) {}
  lemma TreatmentLifestyle() ensures Seqs.Disjoint(BlockTreatment, BlockLifestyle) {}
  lemma TreatmentPhrasing() ensures Seqs.Disjoint(BlockTreatment, BlockPhrasing) {}
  lemma LifestylePhrasing() ensures Seqs.Disjoint(BlockLifestyle, BlockPhrasing) {}

  lemma PatternsConcat(a: seq<Violation>, b: seq<Violation>)
    ensures Patterns(a + b) == Patterns(a) + Patterns(b)
  {
  }

  lemma PatternsOfCandidates(category: string, patterns: seq<string>)
    ensures Patterns(Candidates(category, patterns)) == patterns
  {
  }

  /** The first categories of a table list their possible violations in turn. */
  lemma FlattenTwo(b: seq<Block>)
    requires |b| >= 2
    ensures Flatten(b[..2]) == Candidates(b[0].category, b[0].patterns) + Candidates(b[1].category, b[1].patterns)
  {
    FlattenOne(b);
    FlattenSnoc(b, 1);
  }

  lemma FlattenOne(b: seq<Block>)
    requires |b| >= 1
    ensures Flatten(b[..1]) == Candidates(b[0].category, b[0].patterns)
  {
    assert b[..1][..0] == [];
  }

  lemma FlattenThree(b: seq<Block>)
    requires |b| >= 3
    ensures Flatten(b[..3]) == Candidates(b[0].category, b[0].patterns) + Candidates(b[1].category, b[1].patterns) +
                               Candidates(b[2].category, b[2].patterns)
  {
    FlattenTwo(b);
    FlattenSnoc(b, 2);
  }

  lemma FlattenFour(b: seq<Block>)
    requires |b| >= 4
    ensures Flatten(b[..4]) == Candidates(b[0].category, b[0].patterns) + Candidates(b[1].category, b[1].patterns) +
                               Candidates(b[2].category, b[2].patterns) + Candidates(b[3].category, b[3].patterns)
  {
    FlattenThree(b);
    FlattenSnoc(b, 3);
  }

  /** A five-category table lists the possible violations of each category in turn. */
  lemma FlattenFive(b: seq<Block>)
    requires |b| == 5
    ensures Flatten(b) == Candidates(b[0].category, b[0].patterns) + Candidates(b[1].category, b[1].patterns) +
                          Candidates(b[2].category, b[2].patterns) + Candidates(b[3].category, b[3].patterns) +
                          Candidates(b[4].category, b[4].patterns)
  {
    FlattenFour(b);
    FlattenSnoc(b, 4);
    assert b[..5] == b;
  }

  /** The patterns of a five-category table, in table order. */
  lemma FiveBlocks(b: seq<Block>)
    requires |b| == 5
    ensures Patterns(Flatten(b)) == b[0].patterns + (b[1].patterns + (b[2].patterns + (b[3].patterns + b[4].patterns)))
  {
    var c0, c1, c2 := Candidates(b[0].category, b[0].patterns), Candidates(b[1].category, b[1].patterns), Candidates(b[2].category, b[2].patterns);
    var c3, c4 := Candidates(b[3].category, b[3].patterns), Candidates(b[4].category, b[4].patterns);
    FlattenFive(b);
    PatternsConcat(c0 + c1 + c2 + c3, c4);
    PatternsConcat(c0 + c1 + c2, c3);
    PatternsConcat(c0 + c1, c2);
    PatternsConcat(c0, c1);
    PatternsOfCandidates(b[0].category, b[0].patterns);
    PatternsOfCandidates(b[1].category, b[1].patterns);
    PatternsOfCandidates(b[2].category, b[2].patterns);
    PatternsOfCandidates(b[3].category, b[3].patterns);
    PatternsOfCandidates(b[4].category, b[4].patterns);
    var p0, p1, p2, p3, p4 := b[0].patterns, b[1].patterns, b[2].patterns, b[3].patterns, b[4].patterns;
    Seqs.ConcatAssoc(p0 + p1 + p2, p3, p4);
    Seqs.ConcatAssoc(p0 + p1, p2, p3 + p4);
    Seqs.ConcatAssoc(p0, p1, p2 + (p3 + p4));
  }

  /** The table in order: 9 + 9 + 10 + 5 + 5 = 38 patterns. */
  lemma TablePatterns()
    ensures Patterns(Flatten(AllBlocks)) ==
            BlockSeverity + (BlockDiagnosis + (BlockTreatment + (BlockLifestyle + BlockPhrasing)))
    ensures |Flatten(AllBlocks)| == 38
  {
    FiveBlocks(AllBlocks);
  }

  /** No pattern occurs twice in the table. */
  lemma TableDistinct()
    ensures Seqs.Distinct(Patterns(Flatten(AllBlocks)))
  {
    TablePatterns();
    SeverityDistinct(); DiagnosisDistinct(); TreatmentDistinct(); LifestyleDistinct(); PhrasingDistinct();
    SeverityDiagnosis(); SeverityTreatment(); SeverityLifestyle(); SeverityPhrasing();
    DiagnosisTreatment(); DiagnosisLifestyle(); DiagnosisPhrasing();
    TreatmentLifestyle(); TreatmentPhrasing(); LifestylePhrasing();
    Seqs.DistinctConcat(BlockLifestyle, BlockPhrasing);
    Seqs.DisjointConcat(BlockTreatment, BlockLifestyle, BlockPhrasing);
    Seqs.DistinctConcat(BlockTreatment, BlockLifestyle + BlockPhrasing);
    Seqs.DisjointConcat(BlockDiagnosis, BlockLifestyle, BlockPhrasing);
    Seqs.DisjointConcat(BlockDiagnosis, BlockTreatment, BlockLifestyle + BlockPhrasing);
    Seqs.DistinctConcat(BlockDiagnosis, BlockTreatment + (BlockLifestyle + BlockPhrasing));
    Seqs.DisjointConcat(BlockSeverity, BlockLifestyle, BlockPhrasing);
    Seqs.DisjointConcat(BlockSeverity, BlockTreatment, BlockLifestyle + BlockPhrasing);
    Seqs.DisjointConcat(BlockSeverity, BlockDiagnosis, BlockTreatment + (BlockLifestyle + BlockPhrasing));
    Seqs.DistinctConcat(BlockSeverity, BlockDiagnosis + (BlockTreatment + (BlockLifestyle + BlockPhrasing)));
  }

  /** Where each reported violation sits in the list of possible ones. */
  function Picked(xs: seq<Violation>, text: string, matches: (string, string) -> bool): seq<nat>
    decreases |xs|
  {
    if xs == [] then []
    else Picked(xs[..|xs| - 1], text, matches) + (if matches(xs[|xs| - 1].matched, text) then [|xs| - 1] else [])
  }

  /** The positions are strictly increasing and pick exactly the reported violations,
      so the report keeps table order (category, then pattern) and misses no match. */
  lemma {:induction false} PickedPositions(xs: seq<Violation>, text: string, matches: (string, string) -> bool)
    ensures var idx, r := Picked(xs, text, matches), Filter(xs, text, matches);
            && |idx| == |r|
            && (forall k :: 0 <= k < |idx| ==> idx[k] < |xs| && xs[idx[k]] == r[k])
            && (forall k, l :: 0 <= k < l < |idx| ==> idx[k] < idx[l])
            && (forall i :: 0 <= i < |xs| && matches(xs[i].matched, text) ==> i in idx)
    decreases |xs|
  {
    if xs != [] {
      var n := |xs| - 1;
      var init, x := xs[..n], xs[n];
      PickedPositions(init, text, matches);
      assert xs == init + [x];
      FilterSnoc(init, x, text, matches);
      var p, f := Picked(init, text, matches), Filter(init, text, matches);
      assert forall k :: 0 <= k < |p| ==> p[k] < n && xs[p[k]] == init[p[k]];
      assert forall i :: 0 <= i < n ==> xs[i] == init[i];
      if matches(x.matched, text) {
        var idx, r := p + [n], f + [x];
        assert Picked(xs, text, matches) == idx && Filter(xs, text, matches) == r;
        assert forall k :: 0 <= k < |p| ==> idx[k] == p[k] && r[k] == f[k];
      } else {
        assert Picked(xs, text, matches) == p && Filter(xs, text, matches) == f;
      }
    }
  }

  /** Each pattern is reported at most once: there are never two violations with the same pattern. */
  lemma {:induction false} FilterKeepsDistinct(xs: seq<Violation>, text: string, matches: (string, string) -> bool)
    requires Seqs.Distinct(Patterns(xs))
    ensures Seqs.Distinct(Patterns(Filter(xs, text, matches)))
  {
    var r := Filter(xs, text, matches);
    var idx := Picked(xs, text, matches);
    PickedPositions(xs, text, matches);
    forall k, l | 0 <= k < l < |r| ensures r[k].matched != r[l].matched {
      assert xs[idx[k]] == r[k] && xs[idx[l]] == r[l] && idx[k] < idx[l];
      assert Patterns(xs)[idx[k]] != Patterns(xs)[idx[l]];
    }
  }

  /** At most 38 violations, no pattern twice. */
  lemma ViolationsBounded(text: string, matches: (string, string) -> bool)
    ensures |Violations(text, matches)| <= 38
    ensures Seqs.Distinct(Patterns(Violations(text, matches)))
  {
    TablePatterns();
    TableDistinct();
    FilterKeepsDistinct(Flatten(AllBlocks), Text.Lower(text), matches);
  }

  /** The report depends only on the lower-cased text: validating it gives the same violations. */
  lemma CaseInsensitive(text: string, matches: (string, string) -> bool)
    ensures Violations(Text.Lower(text), matches) == Violations(text, matches)
  {
    Text.LowerIdempotent(text);
  }
}
