/**
 * The state layer of the kube-prometheus stack: saving the stack records
 * its dashboard URL, `https://` followed by the stack's hostname, in the
 * repository state's monitoring record; removing it clears the URL. Both
 * read the record, change that one field, and hand the record back to the
 * repository state, returning what saving it returns.
 */
module KubePromStack {
  import opened Api

  /** The monitoring record: its dashboard URL and the rest of its fields, by name. */
  datatype Monitoring = Monitoring(dashboardUrl: string, otherFields: map<string, string>)

  /** The stack as the client describes it; only its hostname is read here. */
  datatype KubePromStackInfo = KubePromStackInfo(hostname: string)

  /** The report of a save: the record saved. */
  datatype StateReport = StateReport(saved: Monitoring)

  datatype StateError = SaveFailed

  const UrlScheme := "https://"

  /** The record with the dashboard URL of a stack served at `hostname`. */
  function WithDashboard(m: Monitoring, hostname: string): Monitoring {
    m.(dashboardUrl := UrlScheme + hostname)
  }

  /** The record without a dashboard URL. */
  function WithoutDashboard(m: Monitoring): Monitoring {
    m.(dashboardUrl := "")
  }

  /** The hostname a dashboard URL names, when it has the scheme the program writes. */
  function HostnameOf(url: string): (h: Option<string>)
    ensures h.Some? <==> |url| >= |UrlScheme| && url[..|UrlScheme|] == UrlScheme
    ensures h.Some? ==> url == UrlScheme + h.value
  {
    if |url| >= |UrlScheme| && url[..|UrlScheme|] == UrlScheme then Some(url[|UrlScheme|..]) else None
  }

  /** The hostname can be read back from the URL saved, and no other field of the record changes. */
  lemma SavedUrlNamesHost(m: Monitoring, hostname: string)
    ensures HostnameOf(WithDashboard(m, hostname).dashboardUrl) == Some(hostname)
    ensures WithDashboard(m, hostname).otherFields == m.otherFields
  {
    assert (UrlScheme + hostname)[..|UrlScheme|] == UrlScheme;
    assert (UrlScheme + hostname)[|UrlScheme|..] == hostname;
  }

  /** A removed dashboard URL names no hostname, and no other field of the record changes. */
  lemma RemovedUrlNamesNoHost(m: Monitoring)
    ensures HostnameOf(WithoutDashboard(m).dashboardUrl).None?
    ensures WithoutDashboard(m).otherFields == m.otherFields
  {
  }

  /** Saving again overwrites the URL, removing after saving gives what removing alone gives, and removing twice is removing once. */
  lemma SaveRemoveLaws(m: Monitoring, h1: string, h2: string)
    ensures WithDashboard(WithDashboard(m, h1), h2) == WithDashboard(m, h2)
    ensures WithoutDashboard(WithDashboard(m, h1)) == WithoutDashboard(m)
    ensures WithoutDashboard(WithoutDashboard(m)) == WithoutDashboard(m)
  {
  }

  /**
   * The repository state as far as the stack uses it: the monitoring record,
   * and whether saving fails. Saving stores the record and reports it.
   */
  class RepositoryState {
    var monitoring: Monitoring
    const saveFails: bool

    constructor (m: Monitoring, saveFails: bool)
      ensures monitoring == m && this.saveFails == saveFails
    {
      monitoring := m;
      this.saveFails := saveFails;
    }

    method GetMonitoring() returns (m: Monitoring)
      ensures m == monitoring
    {
      m := monitoring;
    }

    method SaveMonitoring(m: Monitoring) returns (report: Option<StateReport>, err: Option<StateError>)
      modifies this`monitoring
      ensures saveFails ==> report.None? && err == Some(SaveFailed) && monitoring == old(monitoring)
      ensures !saveFails ==> report == Some(StateReport(m)) && err.None? && monitoring == m
    {
      if saveFails {
        report, err := None, Some(SaveFailed);
      } else {
        monitoring := m;
        report, err := Some(StateReport(m)), None;
      }
    }
  }

  /** The stack's state layer over a repository state. */
  class KubePromStackState {
    const state: RepositoryState

    constructor (state: RepositoryState)
      ensures this.state == state
    {
      this.state := state;
    }

    /**
     * Clears the dashboard URL: the record saved is the one read, with an
     * empty URL, and what saving returns is returned. The stack's identity
     * is not used.
     */
    method RemoveKubePromStack(id: ID) returns (report: Option<StateReport>, err: Option<StateError>)
      modifies state`monitoring
      ensures state.saveFails ==> report.None? && err == Some(SaveFailed) && state.monitoring == old(state.monitoring)
      ensures !state.saveFails ==>
        report == Some(StateReport(WithoutDashboard(old(state.monitoring)))) && err.None? &&
        state.monitoring == WithoutDashboard(old(state.monitoring))
    {
      var m := state.GetMonitoring();
      m := m.(dashboardUrl := "");
      report, err := state.SaveMonitoring(m);
    }

    /**
     * Records the dashboard URL `https://<hostname>`: the record saved is the
     * one read with that URL, and what saving returns is returned.
     */
    method SaveKubePromStack(kube: KubePromStackInfo) returns (report: Option<StateReport>, err: Option<StateError>)
      modifies state`monitoring
      ensures state.saveFails ==> report.None? && err == Some(SaveFailed) && state.monitoring == old(state.monitoring)
      ensures !state.saveFails ==>
        report == Some(StateReport(WithDashboard(old(state.monitoring), kube.hostname))) && err.None? &&
        state.monitoring == WithDashboard(old(state.monitoring), kube.hostname)
    {
      var m := state.GetMonitoring();
      m := m.(dashboardUrl := "https://" + kube.hostname);
      report, err := state.SaveMonitoring(m);
    }
  }
}
