/** What the global scans guarantee about the parsed record, for every keyword:
    a field holds what the last visited match of its own pattern stored, it is set
    exactly when its pattern matches somewhere, and the last match wins. */
module ParameterScanFacts {
  import opened Text
  import opened Parameters

  function LastOf(ts: seq<Token>): (r: Option<Token>)
    ensures r.Some? <==> ts != []
  {
    if ts == [] then None else Some(ts[|ts| - 1])
  }

  /** Running the callbacks of one keyword's scan sets that keyword's field to the
      last token and leaves every other field alone. */
  lemma {:induction false} ApplyAllField(p: Parameters, ts: seq<Token>, k0: Keyword, key: Keyword)
    requires forall t <- ts :: t.Key() == k0
    ensures ApplyAll(p, ts).Field(key) == if key == k0 && ts != [] then LastOf(ts) else p.Field(key)
    decreases |ts|
  {
    if ts != [] {
      var p' := Apply(p, ts[0]);
      assert forall t <- ts[1..] :: t.Key() == k0 by {
        forall t | t in ts[1..] ensures t.Key() == k0 { assert t in ts; }
      }
      ApplyAllField(p', ts[1..], k0, key);
      if ts[1..] != [] {
        assert ts[1..][|ts[1..]| - 1] == ts[|ts| - 1];
      }
    }
  }

  /** The compiled regex of `key` applied at an index is the recognizer there. */
  lemma PatternOfAt(key: Keyword, s: string, i: nat)
    requires i <= |s|
    ensures PatternOf(key)(s, i) == MatchAt(key, s, i)
  {
  }

  /** Each field of the parsed record is what the last match of its own pattern
      stored, whatever the other five patterns found. */
  lemma ParsedField(s: string, key: Keyword)
    ensures Parsed(s).Field(key) == LastOf(Scanned(key, s))
  {
    var p1 := ApplyAll(NoParameters, Scanned(AlphaQualityKey, s));
    var p2 := ApplyAll(p1, Scanned(BlurKey, s));
    var p3 := ApplyAll(p2, Scanned(FormatKey, s));
    var p4 := ApplyAll(p3, Scanned(ProgressiveKey, s));
    var p5 := ApplyAll(p4, Scanned(QualityKey, s));
    ApplyAllField(NoParameters, Scanned(AlphaQualityKey, s), AlphaQualityKey, key);
    ApplyAllField(p1, Scanned(BlurKey, s), BlurKey, key);
    ApplyAllField(p2, Scanned(FormatKey, s), FormatKey, key);
    ApplyAllField(p3, Scanned(ProgressiveKey, s), ProgressiveKey, key);
    ApplyAllField(p4, Scanned(QualityKey, s), QualityKey, key);
    ApplyAllField(p5, Scanned(RotateKey, s), RotateKey, key);
  }

  /** A scan from `pos` finds something exactly when the pattern matches at some
      index at or after `pos`. */
  lemma {:induction false} ScanNonEmpty(m: Pattern, key: Keyword, s: string, pos: nat)
    requires Yields(m, key)
    ensures Scan(m, key, s, pos) != [] <==> exists j :: pos <= j < |s| && m(s, j).Some?
    decreases |s| - pos
  {
    if pos < |s| {
      ScanStep(m, key, s, pos);
      if m(s, pos).None? {
        ScanNonEmpty(m, key, s, pos + 1);
        assert forall j :: pos <= j < |s| && m(s, j).Some? ==> pos + 1 <= j;
      }
    }
  }

  /** Every token a scan yields is the token of a match at or after `pos`. */
  lemma {:induction false} ScanTokenIsMatch(m: Pattern, key: Keyword, s: string, pos: nat, t: Token)
    requires Yields(m, key) && t in Scan(m, key, s, pos)
    ensures exists j :: pos <= j < |s| && m(s, j).Some? && m(s, j).value.token == t
    decreases |s| - pos
  {
    if pos < |s| {
      ScanStep(m, key, s, pos);
      match m(s, pos)
      case Some(h) =>
        if t != h.token {
          ScanTokenIsMatch(m, key, s, pos + h.len, t);
        }
      case None =>
        ScanTokenIsMatch(m, key, s, pos + 1, t);
    }
  }

  /** The scan's last token comes from the match at `i` when no match starts after
      `i` and no match the scan can visit before `i` runs past it. */
  lemma {:induction false} ScanLast(m: Pattern, key: Keyword, s: string, pos: nat, i: nat)
    requires Yields(m, key) && pos <= i < |s| && m(s, i).Some?
    requires forall j :: i < j < |s| ==> m(s, j).None?
    requires forall j :: pos <= j < i && m(s, j).Some? ==> j + m(s, j).value.len <= i
    ensures LastOf(Scan(m, key, s, pos)) == Some(m(s, i).value.token)
    decreases i - pos
  {
    ScanStep(m, key, s, pos);
    var h := m(s, pos);
    if pos == i {
      ScanNonEmpty(m, key, s, pos + h.value.len);
    } else if h.Some? {
      ScanLast(m, key, s, pos + h.value.len, i);
      var rest := Scan(m, key, s, pos + h.value.len);
      assert LastOf([h.value.token] + rest) == LastOf(rest);
    } else {
      ScanLast(m, key, s, pos + 1, i);
    }
  }

  // ---------------------------------------------------------------------------
  // The same facts, stated on the record `paramParser` returns

  /** A field is set exactly when its own pattern matches somewhere in the segment. */
  lemma FieldSetIffMatch(s: string, key: Keyword)
    ensures Parsed(s).Field(key).Some? <==> exists i :: 0 <= i < |s| && MatchAt(key, s, i).Some?
  {
    ParsedField(s, key);
    var m := PatternOf(key);
    ScanNonEmpty(m, key, s, 0);
    forall i | 0 <= i < |s| ensures m(s, i) == MatchAt(key, s, i) { PatternOfAt(key, s, i); }
  }

  /** A set field holds what some match of its own pattern stored. */
  lemma FieldFromMatch(s: string, key: Keyword)
    requires Parsed(s).Field(key).Some?
    ensures exists i :: 0 <= i < |s| && MatchAt(key, s, i).Some?
                        && MatchAt(key, s, i).value.token == Parsed(s).Field(key).value
  {
    ParsedField(s, key);
    var m := PatternOf(key);
    var ts := Scanned(key, s);
    ScanTokenIsMatch(m, key, s, 0, ts[|ts| - 1]);
    var i :| 0 <= i < |s| && m(s, i).Some? && m(s, i).value.token == ts[|ts| - 1];
    PatternOfAt(key, s, i);
  }

  /** The last match wins: with no match after index `i`, and none before it that
      runs past it, the field holds what the match at `i` stored. */
  lemma LastMatchWins(s: string, key: Keyword, i: nat)
    requires i < |s| && MatchAt(key, s, i).Some?
    requires forall j :: i < j < |s| ==> MatchAt(key, s, j).None?
    requires forall j :: 0 <= j < i && MatchAt(key, s, j).Some? ==> j + MatchAt(key, s, j).value.len <= i
    ensures Parsed(s).Field(key) == Some(MatchAt(key, s, i).value.token)
  {
    ParsedField(s, key);
    var m := PatternOf(key);
    forall j | 0 <= j < |s| ensures m(s, j) == MatchAt(key, s, j) { PatternOfAt(key, s, j); }
    ScanLast(m, key, s, 0, i);
  }

  /** A segment in which no pattern matches anywhere parses to the empty record; in
      particular the empty segment does. */
  lemma NoMatchNoParameters(s: string)
    requires forall key, i :: 0 <= i < |s| ==> MatchAt(key, s, i).None?
    ensures Parsed(s) == NoParameters
  {
    forall key ensures Parsed(s).Field(key).None? {
      FieldSetIffMatch(s, key);
    }
    var p := Parsed(s);
    assert p.alphaQuality.None? by { assert p.Field(AlphaQualityKey).None?; }
    assert p.blur.None? by { assert p.Field(BlurKey).None?; }
    assert p.format.None? by { assert p.Field(FormatKey).None?; }
    assert p.progressive.None? by { assert p.Field(ProgressiveKey).None?; }
    assert p.quality.None? by { assert p.Field(QualityKey).None?; }
    assert p.rotate.None? by { assert p.Field(RotateKey).None?; }
  }
}
