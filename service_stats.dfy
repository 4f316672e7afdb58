/**
 * `getServiceStats`: folds a service's status log (`timestamp,status,...`
 * per line) and usage log (`timestamp,?,cpu,mem,...` per line) into counts
 * and series. A missing file is `None`. The uptime is kept in hundredths of
 * a percent, so `round(..., 2)` becomes integer arithmetic; the CPU and
 * memory samples stay the strings of the log.
 */
module ServiceStats {
  import opened Wrappers
  import opened PhpStrings

  /** The `$stats` array. */
  datatype Stats = Stats(
    hasData: bool,
    uptime: nat,
    totalRecords: nat,
    uptimeHistory: seq<nat>,
    cpuHistory: seq<string>,
    memHistory: seq<string>,
    timestamps: seq<string>)

  /** What `getServiceStats` returns when a log file is missing. */
  const NoData := Stats(false, 0, 0, [], [], [], [])

  /** `explode(',', $line)`. */
  function Fields(line: string): seq<string>
  {
    Split(line, ',')
  }

  /** `($status === 'UP') ? 1 : 0` for a line with at least two fields. */
  function UpFlag(line: string): nat
    requires |Fields(line)| >= 2
  {
    if Fields(line)[1] == "UP" then 1 else 0
  }

  /** Number of lines with at least `n` comma fields. */
  function CountWithFields(lines: seq<string>, n: nat): nat
  {
    if lines == [] then 0
    else CountWithFields(lines[..|lines| - 1], n) + (if |Fields(lines[|lines| - 1])| >= n then 1 else 0)
  }

  function Sum(xs: seq<nat>): nat
  {
    if xs == [] then 0 else Sum(xs[..|xs| - 1]) + xs[|xs| - 1]
  }

  /** The first field of every status line with two or more fields. */
  function Timestamps(lines: seq<string>): seq<string>
  {
    if lines == [] then []
    else
      var line := lines[|lines| - 1];
      Timestamps(lines[..|lines| - 1]) + (if |Fields(line)| >= 2 then [Fields(line)[0]] else [])
  }

  /** 1 or 0 for every status line with two or more fields, by whether its second field is `UP`. */
  function UptimeHistory(lines: seq<string>): seq<nat>
  {
    if lines == [] then []
    else
      var line := lines[|lines| - 1];
      UptimeHistory(lines[..|lines| - 1]) + (if |Fields(line)| >= 2 then [UpFlag(line)] else [])
  }

  /** `$upCount`: the status lines with two or more fields whose second field is `UP`. */
  function UpCount(lines: seq<string>): nat
  {
    if lines == [] then 0
    else
      var line := lines[|lines| - 1];
      UpCount(lines[..|lines| - 1]) + (if |Fields(line)| >= 2 then UpFlag(line) else 0)
  }

  /** The third field of every usage line with four or more fields. */
  function CpuHistory(lines: seq<string>): seq<string>
  {
    if lines == [] then []
    else
      var line := lines[|lines| - 1];
      CpuHistory(lines[..|lines| - 1]) + (if |Fields(line)| >= 4 then [Fields(line)[2]] else [])
  }

  /** The fourth field of every usage line with four or more fields. */
  function MemHistory(lines: seq<string>): seq<string>
  {
    if lines == [] then []
    else
      var line := lines[|lines| - 1];
      MemHistory(lines[..|lines| - 1]) + (if |Fields(line)| >= 4 then [Fields(line)[3]] else [])
  }

  /**
   * `round(($up / $total) * 100, 2)` in hundredths of a percent: the
   * nearest integer to 10000 * up / total, halves rounded up.
   */
  function Hundredths(up: nat, total: nat): (h: nat)
    requires 0 < total
    ensures 2 * total * h <= 20000 * up + total < 2 * total * (h + 1)
    ensures up <= total ==> h <= 10000
  {
    QuotientBounds(20000 * up + total, 2 * total);
    if up <= total then
      assert 20000 * up + total < 2 * total * 10001;
      ProductBelow(2 * total, (20000 * up + total) / (2 * total), 10001);
      (20000 * up + total) / (2 * total)
    else
      (20000 * up + total) / (2 * total)
  }

  lemma QuotientBounds(n: nat, d: nat)
    requires d > 0
    ensures d * (n / d) <= n < d * (n / d + 1)
  {
    assert d * (n / d) + n % d == n;
    assert d * (n / d + 1) == d * (n / d) + d;
  }

  /** Dividing both sides of `d * a < d * b` by a positive `d`. */
  lemma ProductBelow(d: int, a: int, b: int)
    requires d > 0 && d * a < d * b
    ensures a < b
  {
    assert d * b - d * a == d * (b - a);
  }

  /** The whole of `getServiceStats`, given the two logs. */
  function StatsOf(statusLog: Option<seq<string>>, usageLog: Option<seq<string>>): Stats
  {
    if statusLog.None? || usageLog.None? then NoData
    else
      var status, usage := statusLog.value, usageLog.value;
      Stats(
        hasData := true,
        uptime := if |status| > 0 then Hundredths(UpCount(status), |status|) else 0,
        totalRecords := |status|,
        uptimeHistory := UptimeHistory(status),
        cpuHistory := CpuHistory(usage),
        memHistory := MemHistory(usage),
        timestamps := Timestamps(status))
  }

  /** `getServiceStats`, with its two `foreach` loops. */
  method GetServiceStats(statusLog: Option<seq<string>>, usageLog: Option<seq<string>>) returns (stats: Stats)
    ensures stats == StatsOf(statusLog, usageLog)
  {
    stats := NoData;
    if statusLog.None? || usageLog.None? {
      return;
    }
    stats := stats.(hasData := true);
    var statusLines := statusLog.value;
    stats := stats.(totalRecords := |statusLines|);
    var upCount := 0;
    for i := 0 to |statusLines|
      invariant stats == NoData.(hasData := true, totalRecords := |statusLines|,
                                 timestamps := Timestamps(statusLines[..i]),
                                 uptimeHistory := UptimeHistory(statusLines[..i]))
      invariant upCount == UpCount(statusLines[..i])
    {
      var parts := Split(statusLines[i], ',');
      assert statusLines[..i + 1][..i] == statusLines[..i];
      if |parts| >= 2 {
        var timestamp, status := parts[0], parts[1];
        stats := stats.(timestamps := stats.timestamps + [timestamp]);
        stats := stats.(uptimeHistory := stats.uptimeHistory + [if status == "UP" then 1 else 0]);
        if status == "UP" {
          upCount := upCount + 1;
        }
      }
    }
    assert statusLines[..|statusLines|] == statusLines;
    if stats.totalRecords > 0 {
      stats := stats.(uptime := Hundredths(upCount, stats.totalRecords));
    }
    var usageLines := usageLog.value;
    ghost var afterStatus := stats;
    for i := 0 to |usageLines|
      invariant stats == afterStatus.(cpuHistory := CpuHistory(usageLines[..i]), memHistory := MemHistory(usageLines[..i]))
    {
      var parts := Split(usageLines[i], ',');
      assert usageLines[..i + 1][..i] == usageLines[..i];
      if |parts| >= 4 {
        stats := stats.(cpuHistory := stats.cpuHistory + [parts[2]], memHistory := stats.memHistory + [parts[3]]);
      }
    }
    assert usageLines[..|usageLines|] == usageLines;
  }

  /**
   * The status series: one timestamp and one 0/1 flag per line with two or
   * more fields, the flags summing to the up count, which never exceeds
   * the number of lines.
   */
  lemma {:induction false} StatusSeries(lines: seq<string>)
    ensures |Timestamps(lines)| == |UptimeHistory(lines)| == CountWithFields(lines, 2)
    ensures forall i :: 0 <= i < |UptimeHistory(lines)| ==> UptimeHistory(lines)[i] <= 1
    ensures Sum(UptimeHistory(lines)) == UpCount(lines)
    ensures UpCount(lines) <= CountWithFields(lines, 2) <= |lines|
  {
    if lines != [] {
      var init, line := lines[..|lines| - 1], lines[|lines| - 1];
      StatusSeries(init);
      var h := UptimeHistory(lines);
      if |Fields(line)| >= 2 {
        assert h == UptimeHistory(init) + [UpFlag(line)];
        assert h[..|h| - 1] == UptimeHistory(init);
        assert Sum(h) == Sum(UptimeHistory(init)) + UpFlag(line);
      } else {
        assert h == UptimeHistory(init);
      }
    }
  }

  /** The usage series: one CPU and one memory sample per line with four or more fields. */
  lemma {:induction false} UsageSeries(lines: seq<string>)
    ensures |CpuHistory(lines)| == |MemHistory(lines)| == CountWithFields(lines, 4) <= |lines|
  {
    if lines != [] {
      UsageSeries(lines[..|lines| - 1]);
    }
  }

  /**
   * What `getServiceStats` promises: no data and empty series when a log is
   * missing; otherwise every status line counts toward the total, the
   * status series are aligned and sum to the up count, the uptime is that
   * count's share of the total rounded to hundredths (0 for an empty log,
   * never above 100 %), and the CPU and memory series are aligned.
   */
  lemma StatsSummary(statusLog: Option<seq<string>>, usageLog: Option<seq<string>>)
    ensures var st := StatsOf(statusLog, usageLog);
            && (statusLog.None? || usageLog.None? <==> !st.hasData)
            && (!st.hasData ==> st == NoData)
    ensures statusLog.Some? && usageLog.Some? ==>
              var st := StatsOf(statusLog, usageLog);
              var status, usage := statusLog.value, usageLog.value;
              && st.totalRecords == |status|
              && |st.timestamps| == |st.uptimeHistory| == CountWithFields(status, 2)
              && (forall i :: 0 <= i < |st.uptimeHistory| ==> st.uptimeHistory[i] <= 1)
              && Sum(st.uptimeHistory) == UpCount(status)
              && st.uptime <= 10000
              && (st.totalRecords == 0 ==> st.uptime == 0)
              && (st.totalRecords > 0 ==>
                    2 * st.totalRecords * st.uptime <= 20000 * Sum(st.uptimeHistory) + st.totalRecords
                    < 2 * st.totalRecords * (st.uptime + 1))
              && |st.cpuHistory| == |st.memHistory| == CountWithFields(usage, 4)
  {
    if statusLog.Some? && usageLog.Some? {
      StatusSeries(statusLog.value);
      UsageSeries(usageLog.value);
    }
  }

  /** `a <= b` survives multiplying both sides by a natural number. */
  lemma ScaleBelow(k: nat, a: int, b: int)
    requires a <= b
    ensures k * a <= k * b
  {
    assert k * b - k * a == k * (b - a);
  }

  /**
   * The rounding step behind `HundredthsNoHigher`: a quotient taken over
   * the larger total never exceeds the one over the smaller total.
   */
  lemma RoundedShareNoHigher(m: nat, n: nat, h1: nat, h0: nat)
    requires 0 < n
    requires 2 * (n + 1) * h1 <= m + n + 1
    requires m + n < 2 * n * (h0 + 1)
    ensures h1 <= h0
  {
    var a := 2 * n * h1;
    if a > m + n {
      ScaleBelow(n + 1, m + n + 1, a);
      ScaleBelow(n, 2 * (n + 1) * h1, m + n + 1);
      assert false;
    }
    ProductBelow(2 * n, h1, h0 + 1);
  }

  /** One more sample with the same up count never raises the rounded uptime. */
  lemma HundredthsNoHigher(up: nat, n: nat)
    requires 0 < n
    ensures Hundredths(up, n + 1) <= Hundredths(up, n)
  {
    RoundedShareNoHigher(20000 * up, n, Hundredths(up, n + 1), Hundredths(up, n));
  }

  /**
   * A status line with fewer than two fields adds to no series and not to
   * the up count, but still counts toward the total, so it never raises
   * the uptime.
   */
  lemma MalformedLineDilutes(lines: seq<string>, line: string, usage: seq<string>)
    requires |Fields(line)| < 2
    ensures Timestamps(lines + [line]) == Timestamps(lines)
    ensures UptimeHistory(lines + [line]) == UptimeHistory(lines)
    ensures UpCount(lines + [line]) == UpCount(lines)
    ensures var before, after := StatsOf(Some(lines), Some(usage)), StatsOf(Some(lines + [line]), Some(usage));
            && after.totalRecords == before.totalRecords + 1
            && after.uptime <= before.uptime
  {
    assert (lines + [line])[..|lines|] == lines;
    if lines == [] {
      assert Hundredths(0, 1) == 0;
    } else {
      HundredthsNoHigher(UpCount(lines), |lines|);
    }
  }

  /** A status line `timestamp,status` whose two fields hold no comma. */
  lemma SampleFields(timestamp: string, status: string)
    requires ',' !in timestamp && ',' !in status
    ensures Fields(timestamp + "," + status) == [timestamp, status]
  {
    SplitAt(timestamp, status, ',');
    SplitWhole(status, ',');
  }

  lemma UpCountSnoc(lines: seq<string>, line: string)
    ensures UpCount(lines + [line]) == UpCount(lines) + (if |Fields(line)| >= 2 then UpFlag(line) else 0)
  {
    assert (lines + [line])[..|lines|] == lines;
  }

  /** Adding one `timestamp,status` sample counts it as up exactly when its status is `UP`. */
  lemma UpCountSample(lines: seq<string>, timestamp: string, status: string)
    requires ',' !in timestamp && ',' !in status
    ensures UpCount(lines + [timestamp + "," + status]) == UpCount(lines) + (if status == "UP" then 1 else 0)
  {
    SampleFields(timestamp, status);
    UpCountSnoc(lines, timestamp + "," + status);
  }

  /** The up count of seven samples of which the third and fifth are `DOWN`. */
  lemma FiveOfSevenUp(t1: string, t2: string, t3: string, t4: string, t5: string, t6: string, t7: string)
    requires ',' !in t1 && ',' !in t2 && ',' !in t3 && ',' !in t4 && ',' !in t5 && ',' !in t6 && ',' !in t7
    ensures UpCount([t1 + ",UP", t2 + ",UP", t3 + ",DOWN", t4 + ",UP", t5 + ",DOWN", t6 + ",UP", t7 + ",UP"]) == 5
  {
    var up, down := "UP", "DOWN";
    var l1, l2, l3, l4, l5, l6, l7 := t1 + "," + up, t2 + "," + up, t3 + "," + down, t4 + "," + up,
                                      t5 + "," + down, t6 + "," + up, t7 + "," + up;
    assert UpCount([l1, l2, l3, l4, l5, l6, l7]) == 5 by {
      UpCountSample([], t1, up);
      UpCountSample([l1], t2, up);
      UpCountSample([l1, l2], t3, down);
      UpCountSample([l1, l2, l3], t4, up);
      UpCountSample([l1, l2, l3, l4], t5, down);
      UpCountSample([l1, l2, l3, l4, l5], t6, up);
      UpCountSample([l1, l2, l3, l4, l5, l6], t7, up);
      assert [] + [l1] == [l1];
      assert [l1] + [l2] == [l1, l2];
      assert [l1, l2] + [l3] == [l1, l2, l3];
      assert [l1, l2, l3] + [l4] == [l1, l2, l3, l4];
      assert [l1, l2, l3, l4] + [l5] == [l1, l2, l3, l4, l5];
      assert [l1, l2, l3, l4, l5] + [l6] == [l1, l2, l3, l4, l5, l6];
      assert [l1, l2, l3, l4, l5, l6] + [l7] == [l1, l2, l3, l4, l5, l6, l7];
    }
    assert "," + up == ",UP" && "," + down == ",DOWN";
    assert l1 == t1 + ",UP" && l2 == t2 + ",UP" && l3 == t3 + ",DOWN" && l4 == t4 + ",UP";
    assert l5 == t5 + ",DOWN" && l6 == t6 + ",UP" && l7 == t7 + ",UP";
    assert [l1, l2, l3, l4, l5, l6, l7]
        == [t1 + ",UP", t2 + ",UP", t3 + ",DOWN", t4 + ",UP", t5 + ",DOWN", t6 + ",UP", t7 + ",UP"];
  }

  /**
   * Seven status samples of which five are `UP` give an uptime of 71.43 %,
   * whatever their (comma-free) timestamps.
   */
  lemma SevenSamplesFiveUp(t1: string, t2: string, t3: string, t4: string, t5: string, t6: string, t7: string)
    requires ',' !in t1 && ',' !in t2 && ',' !in t3 && ',' !in t4 && ',' !in t5 && ',' !in t6 && ',' !in t7
    ensures var status := [t1 + ",UP", t2 + ",UP", t3 + ",DOWN", t4 + ",UP", t5 + ",DOWN", t6 + ",UP", t7 + ",UP"];
            StatsOf(Some(status), Some([])).uptime == 7143
  {
    FiveOfSevenUp(t1, t2, t3, t4, t5, t6, t7);
    assert Hundredths(5, 7) == 7143;
  }
}
