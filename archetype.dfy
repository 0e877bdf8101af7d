/**
 * The archetype classifier: a first-match rule cascade over the pillars and
 * the health score of one state, and the display symbol of each archetype.
 * The exclusion rules come first, then Sleepwalker, Digital Leader and
 * Sprinter; a state no rule catches is Moderate.
 */
module Archetype {
  import opened Metrics
  import opened Health

  datatype Archetype =
    | ExcludedYouth
    | ExcludedUpdateImbalance
    | ExcludedGeographic
    | Sleepwalker
    | DigitalLeader
    | Sprinter
    | Moderate

  /** The label the archetype column carries. */
  function Label(a: Archetype): string
  {
    match a
    case ExcludedYouth => "Excluded (Youth)"
    case ExcludedUpdateImbalance => "Excluded (Update Imbalance)"
    case ExcludedGeographic => "Excluded (Geographic)"
    case Sleepwalker => "Sleepwalker"
    case DigitalLeader => "Digital Leader"
    case Sprinter => "Sprinter"
    case Moderate => "Moderate"
  }

  /** classify_archetype: the rules tried in order, the first that holds decides. */
  function Classify(s: ScoredRow): (a: Archetype)
    ensures Fires(a, s)
  {
    var m := s.metrics;
    if m.yir < 0.6 then ExcludedYouth
    else if m.ubi < 0.25 || m.ubi > 0.65 then ExcludedUpdateImbalance
    else if m.gci > 0.6 then ExcludedGeographic
    else if m.tcs < 0.4 && s.health < 40.0 then Sleepwalker
    else if s.health > 70.0 && m.tcs > 0.6 && m.gci < 0.4 && m.yir > 0.8 then DigitalLeader
    else if m.idi > 0.03 then Sprinter
    else Moderate
  }

  // ---------------------------------------------------------------------
  // The cascade as a priority list of independent rules

  /** The condition of each archetype's own rule, read on its own. */
  predicate Fires(a: Archetype, s: ScoredRow)
  {
    var m := s.metrics;
    match a
    case ExcludedYouth => m.yir < 0.6
    case ExcludedUpdateImbalance => m.ubi < 0.25 || m.ubi > 0.65
    case ExcludedGeographic => m.gci > 0.6
    case Sleepwalker => m.tcs < 0.4 && s.health < 40.0
    case DigitalLeader => s.health > 70.0 && m.tcs > 0.6 && m.gci < 0.4 && m.yir > 0.8
    case Sprinter => m.idi > 0.03
    case Moderate => true
  }

  /** The order in which the rules are tried. */
  const Priority: seq<Archetype> :=
    [ExcludedYouth, ExcludedUpdateImbalance, ExcludedGeographic, Sleepwalker, DigitalLeader, Sprinter, Moderate]

  /**
   * The archetype a state receives: its own rule holds and the rule of every
   * archetype before it in the priority order does not.
   */
  lemma ClassifyFirstFiring(s: ScoredRow)
    ensures Fires(Classify(s), s)
    ensures forall k | 0 <= k < |Priority| && Priority[k] == Classify(s) ::
              forall j | 0 <= j < k :: !Fires(Priority[j], s)
  {
  }

  /** Each archetype, characterised by the pillars alone. */
  lemma ClassifyCharacterised(s: ScoredRow)
    ensures var m := s.metrics;
      && (Classify(s) == ExcludedYouth <==> m.yir < 0.6)
      && (Classify(s) == ExcludedUpdateImbalance <==> m.yir >= 0.6 && (m.ubi < 0.25 || m.ubi > 0.65))
      && (Classify(s) == ExcludedGeographic <==> m.yir >= 0.6 && 0.25 <= m.ubi <= 0.65 && m.gci > 0.6)
      && (Classify(s) == Sleepwalker <==>
            m.yir >= 0.6 && 0.25 <= m.ubi <= 0.65 && m.gci <= 0.6 && m.tcs < 0.4 && s.health < 40.0)
      && (Classify(s) == DigitalLeader <==>
            0.25 <= m.ubi <= 0.65 && s.health > 70.0 && m.tcs > 0.6 && m.gci < 0.4 && m.yir > 0.8)
  {
  }

  /** A Digital Leader also passes every exclusion test and is no Sleepwalker. */
  lemma DigitalLeaderPassesExclusions(s: ScoredRow)
    requires Classify(s) == DigitalLeader
    ensures !Fires(ExcludedYouth, s) && !Fires(ExcludedUpdateImbalance, s) && !Fires(ExcludedGeographic, s)
    ensures !Fires(Sleepwalker, s)
  {
  }

  // ---------------------------------------------------------------------
  // Display symbols

  /** The symbol table of assign_archetypes, keyed by label. */
  const ArchetypeSymbol: map<string, string> := map[
    "Digital Leader" := "[+]",
    "Sprinter" := "[~]",
    "Sleepwalker" := "[-]",
    "Excluded (Youth)" := "[!]",
    "Excluded (Update Imbalance)" := "[!]",
    "Excluded (Geographic)" := "[!]",
    "Moderate" := "[=]"
  ]

  predicate IsExcluded(a: Archetype)
  {
    a == ExcludedYouth || a == ExcludedUpdateImbalance || a == ExcludedGeographic
  }

  /**
   * Every label the classifier can produce has a symbol, so the symbol
   * column never comes out missing; the three exclusions share "[!]" and
   * every other archetype has a symbol of its own.
   */
  lemma SymbolTotal(a: Archetype, b: Archetype)
    ensures Label(a) in ArchetypeSymbol
    ensures IsExcluded(a) <==> ArchetypeSymbol[Label(a)] == "[!]"
    ensures !IsExcluded(a) && a != b ==> ArchetypeSymbol[Label(a)] != ArchetypeSymbol[Label(b)]
  {
  }

  /** Distinct archetypes carry distinct labels, and the symbol table has exactly one key per archetype. */
  lemma LabelsDistinct(a: Archetype, b: Archetype)
    ensures a != b ==> Label(a) != Label(b)
    ensures forall k | k in ArchetypeSymbol :: exists c: Archetype :: Label(c) == k
  {
    assert Label(DigitalLeader) == "Digital Leader";
    assert Label(Sprinter) == "Sprinter";
    assert Label(Sleepwalker) == "Sleepwalker";
    assert Label(ExcludedYouth) == "Excluded (Youth)";
    assert Label(ExcludedUpdateImbalance) == "Excluded (Update Imbalance)";
    assert Label(ExcludedGeographic) == "Excluded (Geographic)";
    assert Label(Moderate) == "Moderate";
  }

  /** A scored row with its archetype, symbol and display text. */
  datatype ClassifiedRow = ClassifiedRow(scored: ScoredRow, archetype: Archetype, symbol: string, display: string)

  /**
   * The classified row of s: its archetype is the one whose rule fires
   * first, its symbol is the archetype's entry of the symbol table ("[!]"
   * exactly for the exclusions, three characters in brackets), and its
   * display text is the symbol, a space and the label.
   */
  function ClassifyRow(s: ScoredRow): (c: ClassifiedRow)
    ensures c.scored == s && c.archetype == Classify(s) && Fires(c.archetype, s)
    ensures c.symbol == ArchetypeSymbol[Label(c.archetype)]
    ensures IsExcluded(c.archetype) <==> c.symbol == "[!]"
    ensures |c.symbol| == 3 && c.symbol[0] == '[' && c.symbol[2] == ']'
    ensures |c.display| == 4 + |Label(c.archetype)|
    ensures c.display[..3] == c.symbol && c.display[3] == ' ' && c.display[4..] == Label(c.archetype)
  {
    SymbolTotal(Classify(s), Classify(s));
    var a := Classify(s);
    var symbol := ArchetypeSymbol[Label(a)];
    ClassifiedRow(s, a, symbol, symbol + " " + Label(a))
  }

  /** assign_archetypes: every row classified, in order. */
  function ArchetypeTable(ss: seq<ScoredRow>): (cs: seq<ClassifiedRow>)
    ensures |cs| == |ss|
    ensures forall i | 0 <= i < |ss| :: cs[i] == ClassifyRow(ss[i])
  {
    if ss == [] then [] else [ClassifyRow(ss[0])] + ArchetypeTable(ss[1..])
  }

  /** The display text is the symbol, a space and the label, and the symbol is three characters in brackets. */
  lemma DisplayShape(s: ScoredRow)
    ensures var c := ClassifyRow(s);
      && |c.symbol| == 3 && c.symbol[0] == '[' && c.symbol[2] == ']'
      && c.display[..3] == c.symbol && c.display[3] == ' ' && c.display[4..] == Label(c.archetype)
  {
    var c := ClassifyRow(s);
    assert c.display == c.symbol + " " + Label(c.archetype);
  }
}
