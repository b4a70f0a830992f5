/**
 * The status transition of one website check (`checkWebsite` in main.go) as
 * pure functions over the status map, and a monitoring round as the fold of
 * that step over the configured websites.
 *
 * The HTTP probe itself is not modelled: its outcome is an input.
 */
module Transition {

  /** The two values the monitor ever stores. */
  const Up: string := "up"
  const Down: string := "down"

  /** What `http.Get` produced: a transport error, or a response with its status code. */
  datatype Probe = TransportError | HttpResponse(statusCode: int)

  /** The new status map and whether a "website down" e-mail is sent. */
  datatype StepResult = StepResult(store: map<string, string>, notify: bool)

  /** The result of one round: the status map afterwards and the e-mails sent, in order. */
  datatype RoundResult = RoundResult(store: map<string, string>, alerts: seq<string>)

  predicate IsStatus(s: string)
  {
    s == Up || s == Down
  }

  /** Every stored value is "up" or "down". */
  predicate WellFormed(m: map<string, string>)
  {
    forall url :: url in m ==> IsStatus(m[url])
  }

  /** Reading the map: an absent key gives Go's zero value, the empty string. */
  function Previous(m: map<string, string>, url: string): string
  {
    if url in m then m[url] else ""
  }

  /** The classification a probe leads to: up for a 2xx response, down otherwise. */
  function Classify(p: Probe): (s: string)
    ensures IsStatus(s)
    ensures s == Up <==> p.HttpResponse? && 200 <= p.statusCode <= 299
  {
    match p
    case TransportError => Down
    case HttpResponse(code) => if 200 <= code && code <= 299 then Up else Down
  }

  /**
   * One check of `url` whose probe gave `p`. A transport error or a non-2xx
   * response sends an e-mail and stores "down" unless the stored status is
   * already "down", in which case nothing happens; a 2xx response stores "up"
   * and never sends an e-mail.
   */
  function Step(m: map<string, string>, url: string, p: Probe): (r: StepResult)
    // an e-mail goes out exactly when a down probe finds a status other than "down"
    ensures r.notify <==> Classify(p) == Down && Previous(m, url) != Down
    // afterwards the entry holds the probe's classification
    ensures url in r.store && r.store[url] == Classify(p)
    // a repeated down leaves the map as it was
    ensures Classify(p) == Down && Previous(m, url) == Down ==> r.store == m
    // no other entry is touched
    ensures r.store.Keys == m.Keys + {url}
    ensures forall k :: k in m && k != url ==> r.store[k] == m[k]
    ensures WellFormed(m) ==> WellFormed(r.store)
  {
    var lastStatus := Previous(m, url);
    match p
    case TransportError =>
      if lastStatus != Down then StepResult(m[url := Down], true) else StepResult(m, false)
    case HttpResponse(code) =>
      if 200 <= code && code <= 299 then StepResult(m[url := Up], false)
      else if lastStatus != Down then StepResult(m[url := Down], true)
      else StepResult(m, false)
  }

  /**
   * A website that has never been checked behaves as if it were stored "up":
   * the zero value read for an absent entry is not "down", so a first down
   * probe sends an e-mail and a first up probe does not.
   */
  lemma AbsentActsAsUp(m: map<string, string>, url: string, p: Probe)
    requires url !in m
    ensures Step(m, url, p).notify == Step(m[url := Up], url, p).notify
    ensures Step(m, url, p).store[url] == Step(m[url := Up], url, p).store[url]
    ensures Step(m, url, p).notify <==> Classify(p) == Down
  {
  }

  /** A round: the checks of `websites[i]` with probe `probes[i]`, one after the other. */
  function Round(m: map<string, string>, websites: seq<string>, probes: seq<Probe>): (r: RoundResult)
    requires |probes| == |websites|
    // at most one e-mail per check, and only for a checked website
    ensures |r.alerts| <= |websites|
    ensures forall a :: a in r.alerts ==> a in websites
    ensures WellFormed(m) ==> WellFormed(r.store)
    decreases |websites|
  {
    if websites == [] then RoundResult(m, [])
    else
      var first := Step(m, websites[0], probes[0]);
      var rest := Round(first.store, websites[1..], probes[1..]);
      RoundResult(rest.store, (if first.notify then [websites[0]] else []) + rest.alerts)
  }

  /** A round from check i on is check i followed by the round from check i+1 on. */
  lemma RoundFrom(m: map<string, string>, websites: seq<string>, probes: seq<Probe>, i: nat)
    requires |probes| == |websites| && i < |websites|
    ensures var first := Step(m, websites[i], probes[i]);
      var rest := Round(first.store, websites[i + 1..], probes[i + 1..]);
      Round(m, websites[i..], probes[i..])
        == RoundResult(rest.store, (if first.notify then [websites[i]] else []) + rest.alerts)
  {
    assert websites[i..][1..] == websites[i + 1..] && probes[i..][1..] == probes[i + 1..];
  }

  /** After a round the keys are the old keys plus the configured websites. */
  lemma {:induction false} RoundKeys(m: map<string, string>, websites: seq<string>, probes: seq<Probe>)
    requires |probes| == |websites|
    ensures Round(m, websites, probes).store.Keys == m.Keys + (set w | w in websites)
    decreases |websites|
  {
    if websites != [] {
      var first := Step(m, websites[0], probes[0]);
      RoundKeys(first.store, websites[1..], probes[1..]);
      assert websites == [websites[0]] + websites[1..];
      assert (set w | w in websites) == {websites[0]} + set w | w in websites[1..];
    }
  }

  /**
   * After a round every configured website has an entry, "up" or "down";
   * the keys grow by exactly the websites; entries of other keys are unchanged;
   * only checked websites are alerted, at most once per check.
   */
  lemma {:induction false} RoundCoversWebsites(m: map<string, string>, websites: seq<string>, probes: seq<Probe>)
    requires |probes| == |websites|
    ensures var r := Round(m, websites, probes);
      && r.store.Keys == m.Keys + (set w | w in websites)
      && (forall w :: w in websites ==> w in r.store && IsStatus(r.store[w]))
      && (forall k :: k in m && k !in websites ==> k in r.store && r.store[k] == m[k])
      && (forall a :: a in r.alerts ==> a in websites)
      && |r.alerts| <= |websites|
      && (WellFormed(m) ==> WellFormed(r.store))
    decreases |websites|
  {
    RoundKeys(m, websites, probes);
    if websites != [] {
      var first := Step(m, websites[0], probes[0]);
      RoundCoversWebsites(first.store, websites[1..], probes[1..]);
      var r := Round(m, websites, probes);
      var rest := Round(first.store, websites[1..], probes[1..]);
      assert r.store == rest.store;
      forall w | w in websites
        ensures w in r.store && IsStatus(r.store[w])
      {
        if w !in websites[1..] {
          assert w == websites[0] && w in first.store;
        }
      }
    }
  }

  /** A round leaves the entry of a website that is not checked in it as it was. */
  lemma {:induction false} RoundKeepsOthers(m: map<string, string>, websites: seq<string>, probes: seq<Probe>, url: string)
    requires |probes| == |websites|
    requires url !in websites
    ensures var r := Round(m, websites, probes);
      && (url in r.store <==> url in m)
      && (url in m ==> r.store[url] == m[url])
      && url !in r.alerts
    decreases |websites|
  {
    if websites != [] {
      var first := Step(m, websites[0], probes[0]);
      assert url != websites[0];
      RoundKeepsOthers(first.store, websites[1..], probes[1..], url);
    }
  }

  /**
   * Each goroutine of a round touches only its own website: when the websites
   * are distinct, the entry of `websites[i]` after the round, and whether it
   * was alerted, are those of checking it alone, whatever the order of the
   * other checks.
   */
  lemma {:induction false} RoundPerWebsite(m: map<string, string>, websites: seq<string>, probes: seq<Probe>, i: nat)
    requires |probes| == |websites|
    requires forall j, k :: 0 <= j < k < |websites| ==> websites[j] != websites[k]
    requires i < |websites|
    ensures var r := Round(m, websites, probes);
      var alone := Step(m, websites[i], probes[i]);
      && websites[i] in r.store
      && r.store[websites[i]] == alone.store[websites[i]]
      && multiset(r.alerts)[websites[i]] == (if alone.notify then 1 else 0)
    decreases |websites|
  {
    var first := Step(m, websites[0], probes[0]);
    if i == 0 {
      FirstWebsite(m, websites, probes);
    } else {
      var rest := Round(first.store, websites[1..], probes[1..]);
      assert websites[1..][i - 1] == websites[i] && probes[1..][i - 1] == probes[i];
      RoundPerWebsite(first.store, websites[1..], probes[1..], i - 1);
      LaterWebsite(m, websites, probes, i, rest);
    }
  }

  /** The case of RoundPerWebsite for the first website: the later checks leave it alone. */
  lemma FirstWebsite(m: map<string, string>, websites: seq<string>, probes: seq<Probe>)
    requires |probes| == |websites| && websites != []
    requires websites[0] !in websites[1..]
    ensures var r := Round(m, websites, probes);
      var alone := Step(m, websites[0], probes[0]);
      && websites[0] in r.store
      && r.store[websites[0]] == alone.store[websites[0]]
      && multiset(r.alerts)[websites[0]] == (if alone.notify then 1 else 0)
  {
    var first := Step(m, websites[0], probes[0]);
    RoundUnfold(m, websites, probes);
    RoundKeepsOthers(first.store, websites[1..], probes[1..], websites[0]);
  }

  /** The first check of a round, then the rest of it; the e-mails counted per website. */
  lemma RoundUnfold(m: map<string, string>, websites: seq<string>, probes: seq<Probe>)
    requires |probes| == |websites| && websites != []
    ensures var first := Step(m, websites[0], probes[0]);
      var sent := if first.notify then [websites[0]] else [];
      var rest := Round(first.store, websites[1..], probes[1..]);
      && Round(m, websites, probes) == RoundResult(rest.store, sent + rest.alerts)
      && multiset(Round(m, websites, probes).alerts) == multiset(sent) + multiset(rest.alerts)
  {
  }

  /** The step of RoundPerWebsite for a website after the first. */
  lemma LaterWebsite(m: map<string, string>, websites: seq<string>, probes: seq<Probe>, i: nat, rest: RoundResult)
    requires |probes| == |websites| && 0 < i < |websites| && websites[i] != websites[0]
    requires var first := Step(m, websites[0], probes[0]);
      var alone := Step(first.store, websites[i], probes[i]);
      && rest == Round(first.store, websites[1..], probes[1..])
      && websites[i] in rest.store
      && rest.store[websites[i]] == alone.store[websites[i]]
      && multiset(rest.alerts)[websites[i]] == (if alone.notify then 1 else 0)
    ensures var r := Round(m, websites, probes);
      var alone := Step(m, websites[i], probes[i]);
      && websites[i] in r.store
      && r.store[websites[i]] == alone.store[websites[i]]
      && multiset(r.alerts)[websites[i]] == (if alone.notify then 1 else 0)
  {
    var first := Step(m, websites[0], probes[0]);
    var sent := if first.notify then [websites[0]] else [];
    RoundUnfold(m, websites, probes);
    StepIsLocal(first.store, m, websites[i], probes[i]);
    assert multiset(sent)[websites[i]] == 0;
  }

  /** Checking a website gives the same outcome on any two maps that agree on its entry. */
  lemma StepIsLocal(m1: map<string, string>, m2: map<string, string>, url: string, p: Probe)
    requires Previous(m1, url) == Previous(m2, url)
    ensures Step(m1, url, p).notify == Step(m2, url, p).notify
    ensures Step(m1, url, p).store[url] == Step(m2, url, p).store[url]
  {
  }

  /** The checks of one website over successive rounds: final map and number of e-mails. */
  function History(m: map<string, string>, url: string, probes: seq<Probe>): (r: (map<string, string>, nat))
    // at most one e-mail per check
    ensures r.1 <= |probes|
    decreases |probes|
  {
    if probes == [] then (m, 0)
    else
      var first := Step(m, url, probes[0]);
      var rest := History(first.store, url, probes[1..]);
      (rest.0, rest.1 + if first.notify then 1 else 0)
  }

  /** After one or more checks a website's entry is the classification of its last probe. */
  lemma {:induction false} HistoryEndsWithLastProbe(m: map<string, string>, url: string, probes: seq<Probe>)
    requires |probes| > 0
    ensures var h := History(m, url, probes);
      url in h.0 && h.0[url] == Classify(probes[|probes| - 1])
    decreases |probes|
  {
    if |probes| > 1 {
      HistoryEndsWithLastProbe(Step(m, url, probes[0]).store, url, probes[1..]);
      assert probes[1..][|probes| - 2] == probes[|probes| - 1];
    }
  }

  /** The history of a website depends only on its own entry, not on the rest of the map. */
  lemma {:induction false} HistoryIsLocal(m1: map<string, string>, m2: map<string, string>, url: string, probes: seq<Probe>)
    requires url in m1 <==> url in m2
    requires url in m1 ==> m1[url] == m2[url]
    ensures var h1 := History(m1, url, probes); var h2 := History(m2, url, probes);
      && h1.1 == h2.1
      && (url in h1.0 <==> url in h2.0)
      && (url in h1.0 ==> h1.0[url] == h2.0[url])
    decreases |probes|
  {
    if probes != [] {
      HistoryIsLocal(Step(m1, url, probes[0]).store, Step(m2, url, probes[0]).store, url, probes[1..]);
    }
  }

  /** While a website stays down and is already stored as "down", no e-mail is sent and nothing changes. */
  lemma {:induction false} StaysDownSilently(m: map<string, string>, url: string, probes: seq<Probe>)
    requires Previous(m, url) == Down
    requires forall i :: 0 <= i < |probes| ==> Classify(probes[i]) == Down
    ensures History(m, url, probes) == (m, 0)
    decreases |probes|
  {
    if probes != [] {
      StaysDownSilently(m, url, probes[1..]);
    }
  }

  /**
   * One alert per outage: N >= 1 consecutive down probes of a website whose
   * stored status is not "down" (absent, "" or "up") send exactly one e-mail,
   * on the first of them, and leave it stored as "down".
   */
  lemma OneAlertPerOutage(m: map<string, string>, url: string, probes: seq<Probe>)
    requires |probes| >= 1
    requires Previous(m, url) != Down
    requires forall i :: 0 <= i < |probes| ==> Classify(probes[i]) == Down
    ensures Step(m, url, probes[0]).notify
    ensures History(m, url, probes).1 == 1
    ensures var final := History(m, url, probes).0; url in final && final[url] == Down
  {
    var first := Step(m, url, probes[0]);
    StaysDownSilently(first.store, url, probes[1..]);
  }

  /** Successive rounds over the same websites, `rounds[k]` holding the probes of round k. */
  function Rounds(m: map<string, string>, websites: seq<string>, rounds: seq<seq<Probe>>): (r: RoundResult)
    requires forall k :: 0 <= k < |rounds| ==> |rounds[k]| == |websites|
    // e-mails are only ever sent for configured websites
    ensures forall a :: a in r.alerts ==> a in websites
    ensures WellFormed(m) ==> WellFormed(r.store)
    decreases |rounds|
  {
    if rounds == [] then RoundResult(m, [])
    else
      var first := Round(m, websites, rounds[0]);
      var rest := Rounds(first.store, websites, rounds[1..]);
      RoundResult(rest.store, first.alerts + rest.alerts)
  }

  /** The rounds from round k on are round k followed by the rounds from k+1 on. */
  lemma RoundsFrom(m: map<string, string>, websites: seq<string>, rounds: seq<seq<Probe>>, k: nat)
    requires forall j :: 0 <= j < |rounds| ==> |rounds[j]| == |websites|
    requires k < |rounds|
    ensures var first := Round(m, websites, rounds[k]);
      var rest := Rounds(first.store, websites, rounds[k + 1..]);
      Rounds(m, websites, rounds[k..]) == RoundResult(rest.store, first.alerts + rest.alerts)
  {
    assert rounds[k..][0] == rounds[k] && rounds[k..][1..] == rounds[k + 1..];
  }

  /** The probes website i saw, round after round. */
  function Column(rounds: seq<seq<Probe>>, i: nat): seq<Probe>
    requires forall k :: 0 <= k < |rounds| ==> i < |rounds[k]|
  {
    seq(|rounds|, k requires 0 <= k < |rounds| => rounds[k][i])
  }

  /** The probes a website saw: those of the first round, then those of the later rounds. */
  lemma ColumnUnfold(rounds: seq<seq<Probe>>, i: nat)
    requires forall k :: 0 <= k < |rounds| ==> i < |rounds[k]|
    requires rounds != []
    ensures |Column(rounds, i)| == |rounds|
    ensures Column(rounds, i)[0] == rounds[0][i]
    ensures Column(rounds[1..], i) == Column(rounds, i)[1..]
  {
  }

  /**
   * Over successive rounds with distinct websites, each website's entry and the
   * number of e-mails sent for it are those of its own history of probes.
   */
  lemma {:induction false} RoundsPerWebsite(m: map<string, string>, websites: seq<string>, rounds: seq<seq<Probe>>, i: nat)
    requires forall k :: 0 <= k < |rounds| ==> |rounds[k]| == |websites|
    requires forall j, k :: 0 <= j < k < |websites| ==> websites[j] != websites[k]
    requires i < |websites|
    ensures var r := Rounds(m, websites, rounds);
      var h := History(m, websites[i], Column(rounds, i));
      && multiset(r.alerts)[websites[i]] == h.1
      && (websites[i] in r.store <==> websites[i] in h.0)
      && (websites[i] in r.store ==> r.store[websites[i]] == h.0[websites[i]])
    decreases |rounds|
  {
    if rounds != [] {
      var first := Round(m, websites, rounds[0]);
      RoundsPerWebsite(first.store, websites, rounds[1..], i);
      LaterRounds(m, websites, rounds, i);
    }
  }

  /** The step of RoundsPerWebsite: the first round, then the rounds after it. */
  lemma LaterRounds(m: map<string, string>, websites: seq<string>, rounds: seq<seq<Probe>>, i: nat)
    requires forall k :: 0 <= k < |rounds| ==> |rounds[k]| == |websites|
    requires forall j, k :: 0 <= j < k < |websites| ==> websites[j] != websites[k]
    requires i < |websites| && rounds != []
    requires var first := Round(m, websites, rounds[0]);
      var rest := Rounds(first.store, websites, rounds[1..]);
      var h := History(first.store, websites[i], Column(rounds[1..], i));
      && multiset(rest.alerts)[websites[i]] == h.1
      && (websites[i] in rest.store <==> websites[i] in h.0)
      && (websites[i] in rest.store ==> rest.store[websites[i]] == h.0[websites[i]])
    ensures var r := Rounds(m, websites, rounds);
      var h := History(m, websites[i], Column(rounds, i));
      && multiset(r.alerts)[websites[i]] == h.1
      && (websites[i] in r.store <==> websites[i] in h.0)
      && (websites[i] in r.store ==> r.store[websites[i]] == h.0[websites[i]])
  {
    var url := websites[i];
    var column := Column(rounds, i);
    var first := Round(m, websites, rounds[0]);
    var alone := Step(m, url, rounds[0][i]);
    RoundsUnfold(m, websites, rounds);
    RoundPerWebsite(m, websites, rounds[0], i);
    ColumnUnfold(rounds, i);
    HistoryIsLocal(first.store, alone.store, url, column[1..]);
    HistoryUnfold(m, url, column);
  }

  /** A history is its first check followed by the rest of it. */
  lemma HistoryUnfold(m: map<string, string>, url: string, probes: seq<Probe>)
    requires probes != []
    ensures var first := Step(m, url, probes[0]);
      var rest := History(first.store, url, probes[1..]);
      && History(m, url, probes).0 == rest.0
      && History(m, url, probes).1 == rest.1 + if first.notify then 1 else 0
  {
  }

  /** The first round, then the rest; the e-mails counted per website. */
  lemma RoundsUnfold(m: map<string, string>, websites: seq<string>, rounds: seq<seq<Probe>>)
    requires forall k :: 0 <= k < |rounds| ==> |rounds[k]| == |websites|
    requires rounds != []
    ensures var first := Round(m, websites, rounds[0]);
      var rest := Rounds(first.store, websites, rounds[1..]);
      && Rounds(m, websites, rounds) == RoundResult(rest.store, first.alerts + rest.alerts)
      && multiset(Rounds(m, websites, rounds).alerts) == multiset(first.alerts) + multiset(rest.alerts)
  {
  }

  /**
   * One alert per outage across rounds: a website that is down in each of
   * N >= 1 successive rounds, from a stored status other than "down", gets
   * exactly one e-mail over all of them.
   */
  lemma OneAlertPerOutageAcrossRounds(m: map<string, string>, websites: seq<string>, rounds: seq<seq<Probe>>, i: nat)
    requires forall k :: 0 <= k < |rounds| ==> |rounds[k]| == |websites|
    requires forall j, k :: 0 <= j < k < |websites| ==> websites[j] != websites[k]
    requires i < |websites| && |rounds| >= 1
    requires Previous(m, websites[i]) != Down
    requires forall k :: 0 <= k < |rounds| ==> Classify(rounds[k][i]) == Down
    ensures multiset(Rounds(m, websites, rounds).alerts)[websites[i]] == 1
  {
    RoundsPerWebsite(m, websites, rounds, i);
    OneAlertPerOutage(m, websites[i], Column(rounds, i));
  }

  /** A recovery sends nothing: an up probe never alerts, whatever was stored before. */
  lemma NoRecoveryAlert(m: map<string, string>, url: string, code: int)
    requires 200 <= code <= 299
    ensures !Step(m, url, HttpResponse(code)).notify
    ensures Step(m, url, HttpResponse(code)).store == m[url := Up]
  {
  }

  /** A website never checked before, then down, down, up: one e-mail, on the first down. */
  lemma DownDownUpScenario()
    ensures History(map[], "x.com", [TransportError, HttpResponse(503), HttpResponse(200)])
         == (map["x.com" := Up], 1)
    ensures Step(map[], "x.com", TransportError).notify
  {
    var m1 := Step(map[], "x.com", TransportError);
    assert m1 == StepResult(map["x.com" := Down], true);
    var m2 := Step(m1.store, "x.com", HttpResponse(503));
    assert m2 == StepResult(m1.store, false);
    assert m1.store["x.com" := Up] == map["x.com" := Up];
  }
}
