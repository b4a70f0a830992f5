/**
 * The monitor's shared state, the global `statusMap` of main.go, as an object:
 * the checks and rounds that update it in place, and the status query that
 * reads it. The e-mails `sendEmail` would send are recorded, in order, in
 * `alerts`; whether the SMTP delivery succeeds never affects the status write.
 */
module Monitor {
  import opened Wrappers
  import opened Transition
  import opened Pagination

  lemma AppendAssoc<T>(a: seq<T>, b: seq<T>, c: seq<T>)
    ensures a + b + c == a + (b + c)
  {
  }

  class StatusStore {
    /** Website URL to "up" or "down"; a website gets its entry on its first check. */
    var statusMap: map<string, string>
    /** The websites a "Website Down" e-mail was sent for, oldest first. */
    var alerts: seq<string>

    ghost predicate Valid()
      reads this
    {
      WellFormed(statusMap)
    }

    /** The process starts with an empty map and no e-mail sent. */
    constructor ()
      ensures Valid()
      ensures statusMap == map[] && alerts == []
    {
      statusMap := map[];
      alerts := [];
    }

    /**
     * `checkWebsite` once `http.Get` has returned `probe`: reads the previous
     * status, decides on the e-mail and writes the new status.
     */
    method CheckWebsite(url: string, probe: Probe) returns (notified: bool)
      requires Valid()
      modifies this
      ensures Valid()
      ensures var step := Step(old(statusMap), url, probe);
        statusMap == step.store && notified == step.notify
      ensures alerts == old(alerts) + if notified then [url] else []
    {
      var lastStatus := Previous(statusMap, url);
      notified := false;
      match probe {
        case TransportError =>
          if lastStatus != Down {
            alerts := alerts + [url];
            notified := true;
            statusMap := statusMap[url := Down];
          }
        case HttpResponse(code) =>
          if 200 <= code && code <= 299 {
            statusMap := statusMap[url := Up];
          } else if lastStatus != Down {
            alerts := alerts + [url];
            notified := true;
            statusMap := statusMap[url := Down];
          }
      }
    }

    /**
     * One monitoring round: a check of every configured website, `probes[i]`
     * being what the probe of `websites[i]` returned. The goroutines of the
     * source run here one after the other, in configuration order.
     */
    method RunRound(websites: seq<string>, probes: seq<Probe>)
      requires Valid()
      requires |probes| == |websites|
      modifies this
      ensures Valid()
      ensures var r := Round(old(statusMap), websites, probes);
        statusMap == r.store && alerts == old(alerts) + r.alerts
    {
      ghost var whole := Round(statusMap, websites, probes);
      var i := 0;
      while i < |websites|
        invariant 0 <= i <= |websites|
        invariant Valid()
        invariant Round(statusMap, websites[i..], probes[i..]).store == whole.store
        invariant alerts + Round(statusMap, websites[i..], probes[i..]).alerts == old(alerts) + whole.alerts
      {
        ghost var alertsBefore := alerts;
        ghost var first := Step(statusMap, websites[i], probes[i]);
        ghost var sent := if first.notify then [websites[i]] else [];
        ghost var rest := Round(first.store, websites[i + 1..], probes[i + 1..]);
        RoundFrom(statusMap, websites, probes, i);
        var notified := CheckWebsite(websites[i], probes[i]);
        assert alerts == alertsBefore + sent;
        AppendAssoc(alertsBefore, sent, rest.alerts);
        i := i + 1;
      }
      assert websites[i..] == [] && probes[i..] == [];
    }

    /**
     * `startMonitoring`: the initial round followed by one round per timer
     * tick, `rounds[k]` holding the probe results of round k. Rounds never
     * overlap: each starts from the map the previous one left.
     */
    method StartMonitoring(websites: seq<string>, rounds: seq<seq<Probe>>)
      requires Valid()
      requires forall k :: 0 <= k < |rounds| ==> |rounds[k]| == |websites|
      modifies this
      ensures Valid()
      ensures var r := Rounds(old(statusMap), websites, rounds);
        statusMap == r.store && alerts == old(alerts) + r.alerts
    {
      ghost var whole := Rounds(statusMap, websites, rounds);
      var k := 0;
      while k < |rounds|
        invariant 0 <= k <= |rounds|
        invariant Valid()
        invariant Rounds(statusMap, websites, rounds[k..]).store == whole.store
        invariant alerts + Rounds(statusMap, websites, rounds[k..]).alerts == old(alerts) + whole.alerts
      {
        ghost var alertsBefore := alerts;
        ghost var first := Round(statusMap, websites, rounds[k]);
        ghost var rest := Rounds(first.store, websites, rounds[k + 1..]);
        RoundsFrom(statusMap, websites, rounds, k);
        RunRound(websites, rounds[k]);
        AppendAssoc(alertsBefore, first.alerts, rest.alerts);
        k := k + 1;
      }
      assert rounds[k..] == [];
    }

    /**
     * `statusHandler`: the page `pageArg` of `limitArg` entries of the map
     * sorted by URL. `pageArg` and `limitArg` are the results of
     * `strconv.Atoi` on the query parameters, None when parsing failed.
     */
    method Status(pageArg: Option<int>, limitArg: Option<int>) returns (resp: PaginatedStatusResponse)
      requires Valid()
      ensures exists s :: IsSnapshot(statusMap, s) && SortedByUrl(s) && resp == Respond(s, pageArg, limitArg)
      ensures resp.totalPages == TotalPages(|statusMap|, ParamOrDefault(limitArg, DefaultLimit))
      ensures resp.currentPage == ParamOrDefault(pageArg, DefaultPage)
      ensures forall e :: e in resp.data ==> e.url in statusMap && statusMap[e.url] == e.status
      // every status served is "up" or "down"
      ensures forall e :: e in resp.data ==> IsStatus(e.status)
    {
      var page := ParamOrDefault(pageArg, DefaultPage);
      var limit := ParamOrDefault(limitArg, DefaultLimit);
      var statuses := SortedSnapshot(statusMap);
      var totalItems := |statuses|;
      var totalPages := TotalPages(totalItems, limit);
      var (start, end) := Window(page, limit, totalItems);
      resp := PaginatedStatusResponse(totalPages, page, statuses[start..end]);
      assert resp == Respond(statuses, pageArg, limitArg);
    }
  }
}
