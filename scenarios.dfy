/** Worked examples: the detector and the renderer on small concrete inputs. */
module Scenarios {
  import opened Wrappers
  import opened Records
  import Movers
  import Summary
  import FxData
  import Strings

  const Bitcoin := CryptoRecord("bitcoin", 62000.0, 2.5)
  const Ethereum := CryptoRecord("ethereum", 3500.0, -6.0)
  const Solana := CryptoRecord("solana", 150.0, 7.2)

  /** At 5% and the default three movers, solana then ethereum are reported and bitcoin is not. */
  lemma CryptoMovers()
    ensures Movers.TopMovers([Bitcoin, Ethereum, Solana], CryptoPct, 5.0) == [Solana, Ethereum]
  {
    assert Movers.Magnitude(CryptoPct, Bitcoin) == 2.5;
    assert Movers.Magnitude(CryptoPct, Ethereum) == 6.0;
    assert Movers.Magnitude(CryptoPct, Solana) == 7.2;
    assert [Solana][1..] == [];
    assert Movers.Flagged([Solana], CryptoPct, 5.0) == [Solana];
    assert [Ethereum, Solana][1..] == [Solana];
    assert Movers.Flagged([Ethereum, Solana], CryptoPct, 5.0) == [Ethereum, Solana];
    assert [Bitcoin, Ethereum, Solana][1..] == [Ethereum, Solana];
    assert Movers.Flagged([Bitcoin, Ethereum, Solana], CryptoPct, 5.0) == [Ethereum, Solana];
    assert [Ethereum, Solana][..1] == [Ethereum];
    assert Movers.SortDesc(CryptoPct, [Ethereum]) == [Ethereum];
    assert Movers.InsertLast(CryptoPct, [Ethereum], Solana) == [Solana, Ethereum];
    assert Movers.SortDesc(CryptoPct, [Ethereum, Solana]) == [Solana, Ethereum];
  }

  const Usd := FxRecord("USD", 1.09, 0.2, "2024-01-02")
  const Gbp := FxRecord("GBP", 0.86, -0.7, "2024-01-02")

  /** At 0.5% and three movers only the pound is reported. */
  lemma FxMovers()
    ensures Movers.TopMovers([Usd, Gbp], FxPct, 0.5, 3) == [Gbp]
  {
    assert Movers.Magnitude(FxPct, Usd) == 0.2;
    assert Movers.Magnitude(FxPct, Gbp) == 0.7;
    assert [Gbp][1..] == [] && [Usd, Gbp][1..] == [Gbp];
    assert Movers.Flagged([Gbp], FxPct, 0.5) == [Gbp];
    assert Movers.Flagged([Usd, Gbp], FxPct, 0.5) == [Gbp];
    assert [Gbp][..0] == [];
    assert Movers.SortDesc(FxPct, [Gbp]) == [Gbp];
  }

  /** With no crypto movers and the pound as the only FX mover, the report has four lines. */
  lemma FxOnlyReport(fmt: Summary.Formatter)
    ensures Summary.ReportLines(fmt, Summary.Snapshot(None, Some([Gbp]))) ==
      [ "No crypto assets breached the alert threshold today.",
        "",
        "Top FX movers (1d vs EUR):",
        "- GBP: " + fmt.fixed2(-0.7) + "% (rate: " + fmt.fixed4(0.86) + ", date: 2024-01-02)" ]
  {
    Summary.NoCryptoMoversText();
    assert [Gbp][..0] == [];
    var bullet := "- GBP: " + fmt.fixed2(-0.7) + "% (rate: " + fmt.fixed4(0.86) + ", date: 2024-01-02)";
    assert Summary.FxBullet(fmt, Gbp) == bullet;
    assert Summary.FxBullets(fmt, [Gbp]) == [bullet];
    assert Summary.FxLines(fmt, [Gbp]) == [Summary.FxHeader, bullet];
    assert Summary.CryptoLines(fmt, []) == [Summary.NoCryptoMovers];
  }

  const Jan1 := FxData.DailyRates("2024-01-01", map["USD" := 1.08, "GBP" := 0.0])
  const Jan2 := FxData.DailyRates("2024-01-02", map["USD" := 1.09, "GBP" := 0.86])
  const Dec29 := FxData.DailyRates("2023-12-29", map["USD" := 1.10, "GBP" := 0.87, "JPY" := 156.0])

  lemma YearTurnInOrder()
    ensures Strings.Before(Dec29.date, Jan1.date)
  {
    var a, b := Dec29.date, Jan1.date;
    assert a[..3] == b[..3] && a[3] == '3' && b[3] == '4';
    Strings.BeforeAt(a, b, 3);
  }

  lemma NextDayInOrder()
    ensures Strings.Before(Jan1.date, Jan2.date)
  {
    var b, c := Jan1.date, Jan2.date;
    assert b[..9] == c[..9] && b[9] == '1' && c[9] == '2';
    Strings.BeforeAt(b, c, 9);
  }

  lemma DatesInOrder()
    ensures Strings.Before(Dec29.date, Jan1.date)
    ensures Strings.Before(Jan1.date, Jan2.date)
  {
    YearTurnInOrder();
    NextDayInOrder();
  }

  lemma OlderDayStaysBehind()
    ensures FxData.NewestFirst([Jan1, Dec29]) == [Jan1, Dec29]
  {
    DatesInOrder();
    Strings.BeforeAsymmetric(Dec29.date, Jan1.date);
    assert [Jan1, Dec29][..1] == [Jan1] && [Jan1][..0] == [];
    assert FxData.NewestFirst([Jan1]) == [Jan1];
    assert FxData.InsertByDate([Jan1], Dec29) == [Jan1, Dec29];
  }

  lemma NewestDayPassesOne()
    ensures FxData.InsertByDate([Jan1], Jan2) == [Jan2, Jan1]
  {
    DatesInOrder();
    assert [Jan1][..0] == [];
    assert FxData.InsertByDate([], Jan2) == [Jan2];
  }

  lemma NewestDayGoesFirst()
    ensures FxData.InsertByDate([Jan1, Dec29], Jan2) == [Jan2, Jan1, Dec29]
  {
    DatesInOrder();
    Strings.BeforeTransitive(Dec29.date, Jan1.date, Jan2.date);
    NewestDayPassesOne();
    var t := [Jan1, Dec29];
    assert t[..1] == [Jan1] && t[1] == Dec29;
  }

  lemma NewestFirstOfHistory()
    ensures FxData.NewestFirst([Jan1, Dec29, Jan2]) == [Jan2, Jan1, Dec29]
  {
    OlderDayStaysBehind();
    NewestDayGoesFirst();
    assert [Jan1, Dec29, Jan2][..2] == [Jan1, Dec29];
  }

  /**
   * From three days in any order the two newest are compared; a pound quoted
   * at 0 the day before gives a change of 0, and the yen, not quoted on the
   * newest day, is dropped.
   */
  lemma FxHistory()
    ensures var n := FxData.NewestFirst([Jan1, Dec29, Jan2]);
      && n[0] == Jan2 && n[1] == Jan1
      && FxData.FxChanges(["JPY", "GBP", "USD"], n[0], n[1]) ==
         [ FxRecord("GBP", 0.86, 0.0, "2024-01-02"),
           FxRecord("USD", 1.09, (1.09 - 1.08) / 1.08 * 100.0, "2024-01-02") ]
  {
    NewestFirstOfHistory();
    var syms := ["JPY", "GBP", "USD"];
    assert syms[..2] == ["JPY", "GBP"] && ["JPY", "GBP"][..1] == ["JPY"] && ["JPY"][..0] == [];
    assert "JPY" !in Jan2.rates && "GBP" in Jan2.rates && "USD" in Jan2.rates;
    assert FxData.FxChanges(["JPY"], Jan2, Jan1) == [];
    assert FxData.FxChange("GBP", Jan2, Jan1) == FxRecord("GBP", 0.86, 0.0, "2024-01-02");
    assert FxData.FxChanges(["JPY", "GBP"], Jan2, Jan1) == [FxRecord("GBP", 0.86, 0.0, "2024-01-02")];
  }
}
