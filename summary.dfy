/**
 * The rule-based report: a crypto section and an FX section, each either a
 * fixed "no movers" sentence or a header followed by one bullet per mover in
 * the given order, joined with one blank line between them and stripped.
 *
 * Number formatting (`:.2f`, `:.4f`) and `str.title()` are left uninterpreted:
 * they are the fields of a `Formatter`, so that what is proved is the line and
 * section structure, whatever those functions print.
 */
module Summary {
  import opened Wrappers
  import opened Strings
  import opened Records

  datatype Formatter = Formatter(fixed2: real -> string, fixed4: real -> string, title: string -> string)

  /** The two keys of the snapshot the renderer reads; `None` when the key is absent. */
  datatype Snapshot = Snapshot(cryptoTop: Option<seq<CryptoRecord>>, fxTop: Option<seq<FxRecord>>)

  // The two sentences are written in two pieces only so that the verifier sees their first characters.
  const NoCryptoMovers: string := "No crypto assets breached " + "the alert threshold today."
  const CryptoHeader: string := "Top crypto movers (24h):"
  const NoFxMovers: string := "No FX pairs breached " + "the alert threshold today."
  const FxHeader: string := "Top FX movers (1d vs EUR):"

  /** `- Name: <pct:.2f>% (price: $<price:.2f>)` */
  function CryptoBullet(fmt: Formatter, r: CryptoRecord): (b: string)
    ensures |b| >= 3 && b[..2] == "- " && b[|b| - 1] == ')'
  {
    "- " + fmt.title(r.id) + ": " + fmt.fixed2(r.pctChange24h) + "% (price: $" + fmt.fixed2(r.priceUsd) + ")"
  }

  /** `- SYM: <pct:.2f>% (rate: <rate:.4f>, date: <date>)` */
  function FxBullet(fmt: Formatter, r: FxRecord): (b: string)
    ensures |b| >= |r.symbol| + 5 && b[..|r.symbol| + 4] == "- " + r.symbol + ": " && b[|b| - 1] == ')'
  {
    "- " + r.symbol + ": " + fmt.fixed2(r.pctChange1d) + "% (rate: " + fmt.fixed4(r.rateEur) + ", date: " + r.date + ")"
  }

  /** The bullets appended by the loop, one per record. */
  function CryptoBullets(fmt: Formatter, items: seq<CryptoRecord>): (r: seq<string>)
    ensures |r| == |items|
  {
    if items == [] then [] else CryptoBullets(fmt, items[..|items| - 1]) + [CryptoBullet(fmt, items[|items| - 1])]
  }

  function FxBullets(fmt: Formatter, items: seq<FxRecord>): (r: seq<string>)
    ensures |r| == |items|
  {
    if items == [] then [] else FxBullets(fmt, items[..|items| - 1]) + [FxBullet(fmt, items[|items| - 1])]
  }

  /** The lines of the crypto section. */
  function CryptoLines(fmt: Formatter, items: seq<CryptoRecord>): (lines: seq<string>)
    ensures |lines| >= 1
    ensures lines[0] == NoCryptoMovers <==> items == []
  {
    if items == [] then [NoCryptoMovers] else [CryptoHeader] + CryptoBullets(fmt, items)
  }

  /** The lines of the FX section. */
  function FxLines(fmt: Formatter, items: seq<FxRecord>): (lines: seq<string>)
    ensures |lines| >= 1
    ensures lines[0] == NoFxMovers <==> items == []
  {
    if items == [] then [NoFxMovers] else [FxHeader] + FxBullets(fmt, items)
  }

  /** All lines of the report: crypto section, one blank line, FX section. */
  function ReportLines(fmt: Formatter, snap: Snapshot): (lines: seq<string>)
    ensures |lines| >= 3
    ensures "" in lines
  {
    CryptoLines(fmt, snap.cryptoTop.GetOr([])) + [""] + FxLines(fmt, snap.fxTop.GetOr([]))
  }

  // ---------------------------------------------------------------------------
  // Shape of the sections and of the report

  lemma {:induction false} CryptoBulletsAt(fmt: Formatter, items: seq<CryptoRecord>, i: nat)
    requires i < |items|
    ensures CryptoBullets(fmt, items)[i] == CryptoBullet(fmt, items[i])
  {
    if i < |items| - 1 {
      CryptoBulletsAt(fmt, items[..|items| - 1], i);
    }
  }

  lemma {:induction false} FxBulletsAt(fmt: Formatter, items: seq<FxRecord>, i: nat)
    requires i < |items|
    ensures FxBullets(fmt, items)[i] == FxBullet(fmt, items[i])
  {
    if i < |items| - 1 {
      FxBulletsAt(fmt, items[..|items| - 1], i);
    }
  }

  /**
   * An empty list gives exactly the fixed sentence; otherwise the header and
   * then one bullet per record, in the order of the list.
   */
  lemma CryptoSectionShape(fmt: Formatter, items: seq<CryptoRecord>)
    ensures items == [] ==> CryptoLines(fmt, items) == ["No crypto assets breached the alert threshold today."]
    ensures items != [] ==>
      && |CryptoLines(fmt, items)| == 1 + |items|
      && CryptoLines(fmt, items)[0] == "Top crypto movers (24h):"
      && forall i :: 0 <= i < |items| ==> CryptoLines(fmt, items)[i + 1] == CryptoBullet(fmt, items[i])
  {
    NoCryptoMoversText();
    forall i | 0 <= i < |items| {
      CryptoBulletsAt(fmt, items, i);
    }
  }

  lemma FxSectionShape(fmt: Formatter, items: seq<FxRecord>)
    ensures items == [] ==> FxLines(fmt, items) == ["No FX pairs breached the alert threshold today."]
    ensures items != [] ==>
      && |FxLines(fmt, items)| == 1 + |items|
      && FxLines(fmt, items)[0] == "Top FX movers (1d vs EUR):"
      && forall i :: 0 <= i < |items| ==> FxLines(fmt, items)[i + 1] == FxBullet(fmt, items[i])
  {
    NoFxMoversText();
    forall i | 0 <= i < |items| {
      FxBulletsAt(fmt, items, i);
    }
  }

  /** How many lines the report has. */
  lemma ReportLineCount(fmt: Formatter, snap: Snapshot)
    ensures var c, f := snap.cryptoTop.GetOr([]), snap.fxTop.GetOr([]);
      |ReportLines(fmt, snap)| == (if c == [] then 1 else 1 + |c|) + 1 + (if f == [] then 1 else 1 + |f|)
  {
  }

  /**
   * When no record field and no formatted number holds a newline, splitting the
   * report at newlines gives back exactly its lines.
   */
  lemma ReportSplitLines(fmt: Formatter, snap: Snapshot)
    requires forall i :: 0 <= i < |ReportLines(fmt, snap)| ==> '\n' !in ReportLines(fmt, snap)[i]
    ensures SplitLines(Join("\n", ReportLines(fmt, snap))) == ReportLines(fmt, snap)
    ensures |SplitLines(Join("\n", ReportLines(fmt, snap)))| == |ReportLines(fmt, snap)|
  {
    SplitJoin(ReportLines(fmt, snap));
  }

  /** Non-empty lines, the first starting with a capital letter, the last ending with `.` or `)`. */
  predicate FramedLines(lines: seq<string>)
  {
    && |lines| >= 1
    && (forall i :: 0 <= i < |lines| ==> lines[i] != [])
    && lines[0][0] in {'N', 'T'}
    && lines[|lines| - 1][|lines[|lines| - 1]| - 1] in {'.', ')'}
  }

  lemma FixedTextEnds()
    ensures NoCryptoMovers[0] == 'N' && NoCryptoMovers[|NoCryptoMovers| - 1] == '.'
    ensures NoFxMovers[0] == 'N' && NoFxMovers[|NoFxMovers| - 1] == '.'
    ensures CryptoHeader[0] == 'T' && FxHeader[0] == 'T'
  {
  }

  lemma NoCryptoMoversText()
    ensures NoCryptoMovers == "No crypto assets breached the alert threshold today."
  {
  }

  lemma NoFxMoversText()
    ensures NoFxMovers == "No FX pairs breached the alert threshold today."
  {
  }

  lemma CryptoSectionFramed(fmt: Formatter, items: seq<CryptoRecord>)
    ensures FramedLines(CryptoLines(fmt, items))
  {
    var lines := CryptoLines(fmt, items);
    CryptoSectionShape(fmt, items);
    if items == [] {
      assert lines[0] == NoCryptoMovers;
      FixedTextEnds();
    } else {
      assert lines[0] == CryptoHeader;
      assert CryptoHeader[0] == 'T';
      forall i | 1 <= i < |lines|
        ensures lines[i] != [] && lines[i][|lines[i]| - 1] == ')'
      {
        var b := CryptoBullet(fmt, items[i - 1]);
        assert lines[i] == b;
        assert b[0] == '-' && b[|b| - 1] == ')';
      }
    }
  }

  lemma FxSectionFramed(fmt: Formatter, items: seq<FxRecord>)
    ensures FramedLines(FxLines(fmt, items))
  {
    var lines := FxLines(fmt, items);
    FxSectionShape(fmt, items);
    if items == [] {
      assert lines[0] == NoFxMovers;
      FixedTextEnds();
    } else {
      assert lines[0] == FxHeader;
      assert FxHeader[0] == 'T';
      forall i | 1 <= i < |lines|
        ensures lines[i] != [] && lines[i][|lines[i]| - 1] == ')'
      {
        var b := FxBullet(fmt, items[i - 1]);
        assert lines[i] == b;
        assert b[0] == '-' && b[|b| - 1] == ')';
      }
    }
  }

  /** A section's text starts and ends with a character that is not white space. */
  lemma FramedText(lines: seq<string>)
    requires FramedLines(lines)
    ensures var s := Join("\n", lines); s != [] && !IsSpace(s[0]) && !IsSpace(s[|s| - 1])
  {
    JoinEnds("\n", lines);
  }

  /** Two sections joined around an empty line are separated by two newlines. */
  lemma JoinAroundBlank(c: string, f: string)
    ensures Join("\n", [c, "", f]) == c + "\n\n" + f
  {
    assert [c, "", f][1..] == ["", f] && ["", f][1..] == [f];
    assert Join("\n", ["", f]) == "" + "\n" + f;
  }

  /** Two sections joined around an empty line, and stripped. */
  lemma JoinSections(c: string, f: string)
    requires c != [] && !IsSpace(c[0])
    requires f != [] && !IsSpace(f[|f| - 1])
    ensures Join("\n", [c, "", f]) == c + "\n\n" + f
    ensures Strip(c + "\n\n" + f) == c + "\n\n" + f
  {
    JoinAroundBlank(c, f);
    var s := c + "\n\n" + f;
    assert s[0] == c[0] && s[|s| - 1] == f[|f| - 1];
    StripUnchanged(s);
  }

  lemma JoinReport(cl: seq<string>, fl: seq<string>)
    requires FramedLines(cl) && FramedLines(fl)
    ensures var c, f := Join("\n", cl), Join("\n", fl);
      && Join("\n", [c, "", f]) == c + "\n\n" + f
      && Join("\n", cl + [""] + fl) == c + "\n\n" + f
      && Strip(c + "\n\n" + f) == c + "\n\n" + f
  {
    var c, f := Join("\n", cl), Join("\n", fl);
    FramedText(cl);
    FramedText(fl);
    JoinAppend("\n", cl + [""], fl);
    JoinAppend("\n", cl, [""]);
    assert Join("\n", [""]) == "";
    assert c + "\n" + "" + "\n" + f == c + "\n\n" + f;
    JoinSections(c, f);
  }

  /**
   * The report is the crypto section, a blank line and the FX section, and the
   * final `strip()` removes nothing.
   */
  lemma ReportLayout(fmt: Formatter, snap: Snapshot)
    ensures var c := Join("\n", CryptoLines(fmt, snap.cryptoTop.GetOr([])));
      var f := Join("\n", FxLines(fmt, snap.fxTop.GetOr([])));
      && Join("\n", [c, "", f]) == c + "\n\n" + f
      && Join("\n", ReportLines(fmt, snap)) == c + "\n\n" + f
      && Strip(c + "\n\n" + f) == c + "\n\n" + f
  {
    CryptoSectionFramed(fmt, snap.cryptoTop.GetOr([]));
    FxSectionFramed(fmt, snap.fxTop.GetOr([]));
    JoinReport(CryptoLines(fmt, snap.cryptoTop.GetOr([])), FxLines(fmt, snap.fxTop.GetOr([])));
  }

  // ---------------------------------------------------------------------------
  // The code as it runs

  /** `_format_crypto`: build the lines by appending, then join them with newlines. */
  method FormatCrypto(fmt: Formatter, cryptoTop: seq<CryptoRecord>) returns (text: string)
    ensures text == Join("\n", CryptoLines(fmt, cryptoTop))
    ensures cryptoTop == [] ==> text == "No crypto assets breached the alert threshold today."
  {
    if cryptoTop == [] {
      NoCryptoMoversText();
      return NoCryptoMovers;
    }
    var lines := [CryptoHeader];
    for i := 0 to |cryptoTop|
      invariant lines == [CryptoHeader] + CryptoBullets(fmt, cryptoTop[..i])
    {
      lines := lines + [CryptoBullet(fmt, cryptoTop[i])];
      assert cryptoTop[..i + 1][..i] == cryptoTop[..i];
    }
    assert cryptoTop[..|cryptoTop|] == cryptoTop;
    text := Join("\n", lines);
  }

  /** `_format_fx`. */
  method FormatFx(fmt: Formatter, fxTop: seq<FxRecord>) returns (text: string)
    ensures text == Join("\n", FxLines(fmt, fxTop))
    ensures fxTop == [] ==> text == "No FX pairs breached the alert threshold today."
  {
    if fxTop == [] {
      NoFxMoversText();
      return NoFxMovers;
    }
    var lines := [FxHeader];
    for i := 0 to |fxTop|
      invariant lines == [FxHeader] + FxBullets(fmt, fxTop[..i])
    {
      lines := lines + [FxBullet(fmt, fxTop[i])];
      assert fxTop[..i + 1][..i] == fxTop[..i];
    }
    assert fxTop[..|fxTop|] == fxTop;
    text := Join("\n", lines);
  }

  /** `build_rule_based_summary`: a missing key counts as an empty list. */
  method BuildRuleBasedSummary(fmt: Formatter, snap: Snapshot) returns (report: string)
    ensures report == Join("\n", ReportLines(fmt, snap))
    ensures report == Join("\n", CryptoLines(fmt, snap.cryptoTop.GetOr([]))) + "\n\n"
                      + Join("\n", FxLines(fmt, snap.fxTop.GetOr([])))
  {
    var crypto := FormatCrypto(fmt, snap.cryptoTop.GetOr([]));
    var fx := FormatFx(fmt, snap.fxTop.GetOr([]));
    ReportLayout(fmt, snap);
    report := Strip(Join("\n", [crypto, "", fx]));
  }
}
