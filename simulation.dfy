/**
 The investment simulation of `SelicController::simular`: starting from the
 principal, the running total is multiplied, record by record and in series
 order, by the daily factor `1 + (rate / 100) / 252`, where the rate is the
 record's text with its decimal comma turned into a point and then read as a
 number. The number reader (PHP's `(float)` cast) and the final
 `round($total, 2)` are parameters; the arithmetic is over `real`.
 */
module Simulation {
  import opened SelicData
  import opened Text

  /** Business days per year used to turn the annual rate into a daily one. */
  const BusinessDays: real := 252.0

  /** The factor one record applies to the running total: a rate that reads
      as zero leaves the total alone, a non-negative rate never lowers it. */
  function DailyFactor(valor: string, parse: string -> real): (f: real)
    ensures parse(CommaToDot(valor)) == 0.0 ==> f == 1.0
    ensures parse(CommaToDot(valor)) >= 0.0 ==> f >= 1.0
    ensures parse(CommaToDot(valor)) < 0.0 ==> f < 1.0
  {
    1.0 + (parse(CommaToDot(valor)) / 100.0) / BusinessDays
  }

  /** The running total after one more day at the rate `valor`. */
  function Accrue(total: real, valor: string, parse: string -> real): real
  {
    total * DailyFactor(valor, parse)
  }

  /** Left fold of `Accrue` over the series, starting from `total`. */
  function Compound(total: real, dados: seq<Record>, parse: string -> real): real
    decreases |dados|
  {
    if dados == [] then total
    else Compound(Accrue(total, dados[0].valor, parse), dados[1..], parse)
  }

  /** Product of the daily factors of the whole series. */
  function Product(dados: seq<Record>, parse: string -> real): real
    decreases |dados|
  {
    if dados == [] then 1.0
    else DailyFactor(dados[0].valor, parse) * Product(dados[1..], parse)
  }

  /** Folding over two consecutive stretches of the series is folding over the
      first and continuing with the second. */
  lemma {:induction false} CompoundAppend(total: real, a: seq<Record>, b: seq<Record>, parse: string -> real)
    ensures Compound(total, a + b, parse) == Compound(Compound(total, a, parse), b, parse)
    decreases |a|
  {
    if a == [] {
      assert a + b == b;
    } else {
      assert (a + b)[0] == a[0];
      assert (a + b)[1..] == a[1..] + b;
      CompoundAppend(Accrue(total, a[0].valor, parse), a[1..], b, parse);
    }
  }

  /** One more record multiplies the total by that record's factor. */
  lemma CompoundSnoc(total: real, dados: seq<Record>, last: Record, parse: string -> real)
    ensures Compound(total, dados + [last], parse)
         == Compound(total, dados, parse) * DailyFactor(last.valor, parse)
  {
    CompoundAppend(total, dados, [last], parse);
  }

  /** The fold equals the closed form `principal * Π(1 + rate_i/100/252)`. */
  lemma {:induction false} CompoundIsPrincipalTimesProduct(total: real, dados: seq<Record>, parse: string -> real)
    ensures Compound(total, dados, parse) == total * Product(dados, parse)
    decreases |dados|
  {
    if dados != [] {
      var f := DailyFactor(dados[0].valor, parse);
      var p := Product(dados[1..], parse);
      CompoundIsPrincipalTimesProduct(Accrue(total, dados[0].valor, parse), dados[1..], parse);
      assert (total * f) * p == total * (f * p);
    }
  }

  /** Rates of zero, which is what the float cast yields for text it cannot
      read, leave the total unchanged. */
  lemma {:induction false} ZeroRatesKeepTotal(total: real, dados: seq<Record>, parse: string -> real)
    requires forall i :: 0 <= i < |dados| ==> parse(CommaToDot(dados[i].valor)) == 0.0
    ensures Compound(total, dados, parse) == total
    decreases |dados|
  {
    if dados != [] {
      assert parse(CommaToDot(dados[0].valor)) == 0.0;
      assert Accrue(total, dados[0].valor, parse) == total;
      ZeroRatesKeepTotal(total, dados[1..], parse);
    }
  }

  /** With a non-negative principal and non-negative rates the total never
      falls below the principal. */
  lemma {:induction false} CompoundNeverShrinks(total: real, dados: seq<Record>, parse: string -> real)
    requires total >= 0.0
    requires forall i :: 0 <= i < |dados| ==> parse(CommaToDot(dados[i].valor)) >= 0.0
    ensures Compound(total, dados, parse) >= total
    decreases |dados|
  {
    if dados != [] {
      var next := Accrue(total, dados[0].valor, parse);
      assert next >= total by {
        var f := DailyFactor(dados[0].valor, parse);
        assert parse(CommaToDot(dados[0].valor)) >= 0.0;
        assert f >= 1.0;
        assert total * f == total + total * (f - 1.0);
        assert total * (f - 1.0) >= 0.0;
      }
      CompoundNeverShrinks(next, dados[1..], parse);
    }
  }

  /** One day at the provider's text `0,0500` (read as 0.05 percent) turns a
      principal of 1000 into `1000 * (1 + 0.0005 / 252)`. */
  lemma OneDayScenario(parse: string -> real)
    requires parse("0.0500") == 0.05
    ensures Compound(1000.0, [Record(Some("01/01/2024"), "0,0500")], parse) == 1000.0 * (1.0 + 0.0005 / 252.0)
  {
    var day := [Record(Some("01/01/2024"), "0,0500")];
    var dotted := CommaToDot("0,0500");
    assert dotted == "0.0500";
    assert DailyFactor("0,0500", parse) == 1.0 + 0.0005 / 252.0;
    assert Compound(1000.0, day, parse) == Compound(Accrue(1000.0, "0,0500", parse), [], parse);
  }

  /** A rate written with a decimal comma and the same rate written with a
      decimal point compound identically. */
  lemma DailyFactorIgnoresSeparator(a: string, b: string, parse: string -> real)
    requires |a| == |b|
    requires forall i :: 0 <= i < |a| ==> a[i] == b[i] || (a[i] in ",." && b[i] in ",.")
    ensures DailyFactor(a, parse) == DailyFactor(b, parse)
  {
    CommaToDotIgnoresSeparator(a, b);
  }

  /** The simulation result as the controller returns it, `{"valorfinal": …}`. */
  datatype SimulationResult = SimulationResult(valorfinal: real)

  /** `simular`: compounds `principal` over the fetched series and rounds. */
  method Simulate(principal: real, dados: seq<Record>, parse: string -> real, round: real -> real)
    returns (result: SimulationResult)
    ensures result.valorfinal == round(Compound(principal, dados, parse))
    ensures result.valorfinal == round(principal * Product(dados, parse))
    ensures dados == [] ==> result.valorfinal == round(principal)
  {
    var total := principal;
    for i := 0 to |dados|
      invariant total == Compound(principal, dados[..i], parse)
    {
      var dia := dados[i];
      var taxa := parse(CommaToDot(dia.valor)) / 100.0;
      total := total * (1.0 + taxa / BusinessDays);
      CompoundSnoc(principal, dados[..i], dia, parse);
      assert dados[..i + 1] == dados[..i] + [dia];
    }
    assert dados[..|dados|] == dados;
    CompoundIsPrincipalTimesProduct(principal, dados, parse);
    result := SimulationResult(round(total));
  }
}
