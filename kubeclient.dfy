/**
 * The Portfall client of pkg/client/client.go: the registry of forwarded
 * websites and the namespaces the user selected, and the operations that
 * fill and empty it. The Kubernetes API, the port-forward tunnels and the
 * HTTP requests of the favicon resolver are inputs (`Cluster`, `Attempt`).
 */
module KubeClient {
  import opened Wrappers
  import opened Strs
  import opened Favicon
  import opened Urls
  import opened Discovery

  // ---------------------------------------------------------------------
  // The API server host handed to the port-forward dialer
  // ---------------------------------------------------------------------

  const HostCutset: string := "htps:/"

  /** portForwardAPod's host as written: strings.TrimLeft with the cutset "htps:/". */
  function HostIpAsWritten(host: string): string {
    TrimLeft(host, HostCutset)
  }

  /** The host with its "https://" or "http://" scheme prefix removed, as the cutset is meant to do. */
  function HostIp(host: string): string {
    if HasPrefix(host, "https://") then host[8..]
    else if HasPrefix(host, "http://") then host[7..]
    else host
  }

  /** Removing the scheme prefix leaves the host name intact, whatever its letters. */
  lemma HostIpStripsScheme(h: string)
    ensures HostIp("https://" + h) == h
    ensures HostIp("http://" + h) == h
  {
    assert ("https://" + h)[..8] == "https://";
    assert ("https://" + h)[8..] == h;
    assert !HasPrefix("http://" + h, "https://") by {
      if |"http://" + h| >= 8 {
        assert ("http://" + h)[..8][4] == ':' != "https://"[4];
      }
    }
    assert ("http://" + h)[..7] == "http://";
    assert ("http://" + h)[7..] == h;
  }

  /** As written, a host name that starts with one of h, t, p, s loses that letter (and the following ones in the cutset). */
  lemma HostIpAsWrittenDamagesHost(h: string)
    requires h != [] && h[0] in "htps"
    ensures HostIpAsWritten("https://" + h) != h
    ensures HostIpAsWritten("http://" + h) != h
  {
  }

  /** The concrete case: the API server at https://shop is dialled as "op". */
  lemma HostIpShopExample()
    ensures HostIpAsWritten("https://shop") == "op"
  {
    var c := HostCutset;
    TrimLeftStep("https://shop", c, "ttps://shop");
    TrimLeftStep("ttps://shop", c, "tps://shop");
    TrimLeftStep("tps://shop", c, "ps://shop");
    TrimLeftStep("ps://shop", c, "s://shop");
    TrimLeftStep("s://shop", c, "://shop");
    TrimLeftStep("://shop", c, "//shop");
    TrimLeftStep("//shop", c, "/shop");
    TrimLeftStep("/shop", c, "shop");
    TrimLeftStep("shop", c, "hop");
    TrimLeftStep("hop", c, "op");
    OpNotTrimmed();
  }

  /** One step of TrimLeft: a leading cutset character is dropped. */
  lemma TrimLeftStep(s: string, cutset: string, rest: string)
    requires s != [] && s[0] in cutset && s[1..] == rest
    ensures TrimLeft(s, cutset) == TrimLeft(rest, cutset)
  {
  }

  lemma OpNotTrimmed()
    ensures TrimLeft("op", HostCutset) == "op"
  {
    assert "op"[0] !in HostCutset;
  }

  // ---------------------------------------------------------------------
  // Stop channels and websites
  // ---------------------------------------------------------------------

  /** A port-forward's stop channel. Closing it ends the tunnel; closing it twice panics. */
  class StopSignal {
    var closed: bool

    constructor ()
      ensures !closed
    {
      closed := false;
    }

    method Close()
      requires !closed
      modifies this
      ensures closed
    {
      closed := true;
    }
  }

  /** The public details of a website, in the order of its JSON fields. */
  datatype Details = Details(title: string, iconUrl: string, iconRemoteUrl: string, namespace: string, podName: string)

  const NoDetails := Details("", "", "", "", "")

  /** The zero v1.Pod, the pod of `&Website{}`. */
  const NoPod := Pod("", "", "", false, map[], [], [])

  const NoIcon := Icon(0, 0, "", "", "", 0, "")

  /**
   * A website: a forwarded (pod, port) with its tunnel's stop signal and its
   * favicon. Only the public details change after it is built.
   */
  class Website {
    const isForwarded: bool
    const pod: Pod
    const stop: StopSignal?
    const localPort: int
    const podPort: int
    const icon: Icon
    var title: string
    var iconUrl: string
    var iconRemoteUrl: string
    var namespace: string
    var podName: string

    /** `&Website{}`: the placeholder queued for a pair that could not be forwarded. */
    constructor Empty()
      ensures !isForwarded && stop == null && pod == NoPod && localPort == 0 && podPort == 0 && icon == NoIcon
      ensures Public() == NoDetails
    {
      isForwarded, pod, stop, localPort, podPort, icon := false, NoPod, null, 0, 0, NoIcon;
      title, iconUrl, iconRemoteUrl, namespace, podName := "", "", "", "", "";
    }

    /** The website getWebsiteForPort builds once the tunnel is ready and the icon is found. */
    constructor Forwarded(pod: Pod, stop: StopSignal, localPort: int, podPort: int, icon: Icon)
      ensures isForwarded && this.pod == pod && this.stop == stop && this.localPort == localPort
      ensures this.podPort == podPort && this.icon == icon
      ensures Public() == NoDetails
    {
      isForwarded, this.pod, this.stop, this.localPort, this.podPort, this.icon := true, pod, stop, localPort, podPort, icon;
      title, iconUrl, iconRemoteUrl, namespace, podName := "", "", "", "", "";
    }

    function Public(): Details
      reads this
    {
      Details(title, iconUrl, iconRemoteUrl, namespace, podName)
    }

    /** The body of the loop of addDerivedDetailsToWebsites for this website. */
    method AddDerivedDetails()
      modifies this
      ensures Public() == Derive(old(Public()), pod, icon)
    {
      if title == "" {
        title := icon.pageTitle;
        if title == "" {
          title := pod.name;
        }
        iconUrl := "file://" + icon.filePath;
        iconRemoteUrl := icon.remoteUrl;
        podName := pod.name;
        namespace := pod.namespace;
      }
    }
  }

  /**
   * addDerivedDetailsToWebsites for one website: a website without a title
   * gets the page title (or, failing that, the pod name), the local file and
   * remote URL of its icon, and its pod's name and namespace.
   */
  function Derive(d: Details, pod: Pod, icon: Icon): (r: Details)
    ensures d.title != "" ==> r == d
    ensures r.title == "" <==> d.title == "" && icon.pageTitle == "" && pod.name == ""
    ensures d.title == "" ==> r.podName == pod.name && r.namespace == pod.namespace
  {
    if d.title != "" then d
    else Details(if icon.pageTitle != "" then icon.pageTitle else pod.name,
                 "file://" + icon.filePath, icon.remoteUrl, pod.namespace, pod.name)
  }

  /** Deriving again changes nothing, even when the derived title is still empty. */
  lemma DeriveIdempotent(d: Details, pod: Pod, icon: Icon)
    ensures Derive(Derive(d, pod, icon), pod, icon) == Derive(d, pod, icon)
  {
  }

  // ---------------------------------------------------------------------
  // One forward attempt
  // ---------------------------------------------------------------------

  /** What the environment does with one call of getWebsiteForPort. */
  datatype Attempt =
    | NoFreePort
      /** freeport.GetFreePort failed. */
    | TimedOut(localPort: nat)
      /** The tunnel on `localPort` was not ready within 10 seconds. */
    | Ready(localPort: nat, page: Option<Page>, web: Web)
      /** The tunnel is ready; `page` answers http://localhost:<localPort> and `web` the icon URLs. */

  function LocalUrl(port: nat): string {
    "http://localhost:" + Itoa(port)
  }

  /** The local address of a tunnel always parses, with scheme "http". */
  lemma LocalUrlParses(port: nat)
    ensures Parse(LocalUrl(port)).Some?
  {
    var s := LocalUrl(port);
    LocalUrlParts(s, Itoa(port));
    NamePortAuthority(s[7..], 9);
    ParseNetworkPath(s, s[..4], s[5..], s[7..], None);
  }

  /**
   * The parts of http://localhost:<d>: no fragment, no control character,
   * the scheme "http", then "//" and an authority with no '/', no query and
   * a decimal port after "localhost:".
   */
  lemma LocalUrlParts(s: string, d: string)
    requires s == "http://localhost:" + d
    requires forall k :: 0 <= k < |d| ==> IsDigit(d[k])
    ensures Cut(s, '#') == (s, None) && NoControl(s)
    ensures SchemeFrom(s, 0) == Ok((s[..4], s[5..]))
    ensures Cut(s[5..], '?') == ("//" + s[7..], None) && '/' !in s[7..]
    ensures s[7..][9] == ':' && (forall k :: 0 <= k < 9 ==> IsLetter(s[7..][k])) && forall k :: 9 < k < |s[7..]| ==> IsDigit(s[7..][k])
  {
    LocalUrlCharacters(s, d);
    assert Cut(s, '#') == (s, None);
    SchemeUpTo(s, 0, 4);
    assert s[5..] == "//" + s[7..];
  }

  /** No character of http://localhost:<d> is '#', '?' or a control character, none after "http://" is '/', "http" is a scheme and a port follows "localhost:". */
  lemma LocalUrlCharacters(s: string, d: string)
    requires s == "http://localhost:" + d
    requires forall k :: 0 <= k < |d| ==> IsDigit(d[k])
    ensures forall k :: 0 <= k < |s| ==> s[k] != '#' && s[k] != '?' && !IsControl(s[k]) && (7 <= k ==> s[k] != '/')
    ensures s[16] == ':' && (forall k :: 7 <= k < 16 ==> IsLetter(s[k])) && forall k :: 16 < k < |s| ==> IsDigit(s[k])
    ensures s[4] == ':' && IsLetter(s[0]) && forall k :: 0 < k < 4 ==> IsSchemeChar(s[k])
  {
    assert forall k :: 17 <= k < |s| ==> s[k] == d[k - 17];
  }

  /**
   * The attempt yields a forwarded website: the tunnel is ready and the page
   * at the tunnel answers below 400 with at least one icon that downloads.
   */
  predicate Succeeds(a: Attempt) {
    a.Ready? && a.page.Some? && a.page.value.status < 400 && Candidates(a.page.value, a.web) != []
  }

  /** Succeeding is exactly GetBest finding an icon for the tunnel's local address. */
  lemma SucceedsIffBest(a: Attempt)
    ensures Succeeds(a) <==> a.Ready? && BestExists(LocalUrl(a.localPort), a.page, a.web)
  {
    if a.Ready? {
      LocalUrlParses(a.localPort);
    }
  }

  /** The outcomes of the first `n` launches: the k-th launch of a namespace meets attempt k. */
  function Outcomes(attempts: nat -> Attempt, n: nat): (r: seq<Attempt>)
    ensures |r| == n && forall k :: 0 <= k < n ==> r[k] == attempts(k)
  {
    seq(n, k requires 0 <= k < n => attempts(k))
  }

  /** Whether each outcome yields a website. */
  function SuccessFlags(outcomes: seq<Attempt>): (f: seq<bool>)
    ensures |f| == |outcomes| && forall k :: 0 <= k < |f| ==> f[k] == Succeeds(outcomes[k])
  {
    seq(|outcomes|, k requires 0 <= k < |outcomes| => Succeeds(outcomes[k]))
  }

  /** The positions of the set flags, in increasing order. */
  function Positions(flags: seq<bool>): (idx: seq<nat>)
    ensures forall m :: 0 <= m < |idx| ==> idx[m] < |flags|
  {
    if flags == [] then []
    else Positions(flags[..|flags| - 1]) + (if flags[|flags| - 1] then [|flags| - 1] else [])
  }

  /** The positions, in increasing order, of the outcomes that yield a website. */
  function Successes(outcomes: seq<Attempt>): (idx: seq<nat>)
    ensures forall m :: 0 <= m < |idx| ==> idx[m] < |outcomes|
  {
    Positions(SuccessFlags(outcomes))
  }

  /** Exactly the set flags are listed, each once and in order. */
  lemma {:induction false} PositionsExactly(flags: seq<bool>)
    ensures forall m :: 0 <= m < |Positions(flags)| ==> flags[Positions(flags)[m]]
    ensures forall m, m' :: 0 <= m < m' < |Positions(flags)| ==> Positions(flags)[m] < Positions(flags)[m']
    ensures forall k :: 0 <= k < |flags| && flags[k] ==> k in Positions(flags)
  {
    if flags != [] {
      var n := |flags|;
      var init := flags[..n - 1];
      PositionsExactly(init);
      var prev := Positions(init);
      var idx := Positions(flags);
      assert idx == prev + (if flags[n - 1] then [n - 1] else []);
      forall m | 0 <= m < |idx| ensures flags[idx[m]] {
        if m < |prev| {
          assert idx[m] == prev[m];
          assert flags[idx[m]] == init[prev[m]];
        }
      }
      forall k | 0 <= k < n && flags[k] ensures k in idx {
        if k < n - 1 {
          assert init[k] == flags[k];
        }
      }
    }
  }

  /** Exactly the successful outcomes are kept, each once and in order. */
  lemma SuccessesExactly(outcomes: seq<Attempt>)
    ensures forall m :: 0 <= m < |Successes(outcomes)| ==> Succeeds(outcomes[Successes(outcomes)[m]])
    ensures forall m, m' :: 0 <= m < m' < |Successes(outcomes)| ==> Successes(outcomes)[m] < Successes(outcomes)[m']
    ensures forall k :: 0 <= k < |outcomes| && Succeeds(outcomes[k]) ==> k in Successes(outcomes)
  {
    PositionsExactly(SuccessFlags(outcomes));
  }

  /** `w` is the website getWebsiteForPort builds for `pod` and `port` when attempt `a` succeeds. */
  predicate BuiltFor(w: Website, pod: Pod, port: int, a: Attempt) {
    && w.isForwarded && w.pod == pod && w.podPort == port && w.stop != null
    && a.Ready? && w.localPort == a.localPort && a.page.Some? && IsBest(w.icon, a.page.value, a.web)
  }

  /** `w` is what handleWebsiteAdding queues for pair `q` when its attempt is `a`. */
  predicate Queued(w: Website, q: Pair, a: Attempt) {
    (w.isForwarded <==> Succeeds(a)) && (w.isForwarded ==> BuiltFor(w, q.pod, q.port, a))
  }

  /**
   * `w` is queued for `q` under attempt `a`, and `stop` is the stop signal
   * the attempt made: none without a free port, closed exactly when no
   * website was forwarded, and the website's own when one was.
   */
  ghost predicate Settled(w: Website, stop: StopSignal?, q: Pair, a: Attempt)
    reads stop
  {
    && Queued(w, q, a) && (a.NoFreePort? <==> stop == null)
    && (stop != null ==> (stop.closed <==> !w.isForwarded))
    && (w.isForwarded ==> w.stop == stop)
  }

  /** What the queue reader keeps: the forwarded websites, in queue order. */
  function ForwardedOnly(queue: seq<Website>): (r: seq<Website>)
    ensures |r| <= |queue|
    ensures forall m :: 0 <= m < |r| ==> r[m].isForwarded
  {
    if queue == [] then []
    else ForwardedOnly(queue[..|queue| - 1])
         + (if queue[|queue| - 1].isForwarded then [queue[|queue| - 1]] else [])
  }

  /**
   * When each queued website is forwarded exactly when its attempt succeeds,
   * the reader keeps the website of the m-th successful attempt as its m-th.
   */
  lemma ForwardedOnlyAt(queue: seq<Website>, outcomes: seq<Attempt>)
    requires |queue| == |outcomes|
    requires forall j :: 0 <= j < |queue| ==> (queue[j].isForwarded <==> Succeeds(outcomes[j]))
    ensures |ForwardedOnly(queue)| == |Successes(outcomes)|
    ensures forall m :: 0 <= m < |ForwardedOnly(queue)| ==> ForwardedOnly(queue)[m] == queue[Successes(outcomes)[m]]
  {
    ForwardedOnlyPositions(queue, SuccessFlags(outcomes));
  }

  /** The reader keeps the queued websites at the positions of the set flags, when the flags say which are forwarded. */
  lemma {:induction false} ForwardedOnlyPositions(queue: seq<Website>, flags: seq<bool>)
    requires |queue| == |flags|
    requires forall j :: 0 <= j < |queue| ==> queue[j].isForwarded == flags[j]
    ensures |ForwardedOnly(queue)| == |Positions(flags)|
    ensures forall m :: 0 <= m < |ForwardedOnly(queue)| ==> ForwardedOnly(queue)[m] == queue[Positions(flags)[m]]
  {
    if queue != [] {
      var n := |queue|;
      ForwardedOnlyPositions(queue[..n - 1], flags[..n - 1]);
      var prev := ForwardedOnly(queue[..n - 1]);
      var idx := Positions(flags[..n - 1]);
      assert ForwardedOnly(queue) == prev + (if queue[n - 1].isForwarded then [queue[n - 1]] else []);
      assert Positions(flags) == idx + (if flags[n - 1] then [n - 1] else []);
      forall m | 0 <= m < |prev| ensures ForwardedOnly(queue)[m] == queue[Positions(flags)[m]] {
        assert queue[..n - 1][idx[m]] == queue[idx[m]];
      }
    }
  }

  /** Distinct websites with distinct stop signals. */
  predicate Apart(ws: seq<Website>) {
    forall i, j :: 0 <= i < j < |ws| ==> ws[i] != ws[j] && ws[i].stop != ws[j].stop
  }

  /** Two lists of websites that share no website and no stop signal stay apart when joined. */
  lemma ApartAppend(a: seq<Website>, b: seq<Website>)
    requires Apart(a) && Apart(b)
    requires forall i, m :: 0 <= i < |a| && 0 <= m < |b| ==> a[i] != b[m] && a[i].stop != b[m].stop
    ensures Apart(a + b)
  {
    assert forall i :: 0 <= i < |a| ==> (a + b)[i] == a[i];
    assert forall m :: 0 <= m < |b| ==> (a + b)[|a| + m] == b[m];
  }

  /** The stop signals of a list of websites. */
  function StopsOf(ws: seq<Website>): set<StopSignal> {
    set w | w in ws && w.stop != null :: w.stop
  }

  /**
   * `ws` are the websites a namespace yields for the emitted `pairs`: one per
   * successful attempt, in emission order, distinct, each with its own stop
   * signal.
   */
  predicate ForwardedAs(ws: seq<Website>, pairs: seq<Pair>, outcomes: seq<Attempt>) {
    var idx := Successes(outcomes);
    && |outcomes| == |pairs| && |ws| == |idx|
    && (forall m :: 0 <= m < |ws| ==>
          idx[m] < |pairs| && BuiltFor(ws[m], pairs[idx[m]].pod, pairs[idx[m]].port, outcomes[idx[m]]))
    && Apart(ws)
  }

  // ---------------------------------------------------------------------
  // The fate of a website when a namespace is removed
  // ---------------------------------------------------------------------

  /** Stop: its tunnel is closed and it leaves the registry. Keep: it stays. Forget: it leaves the registry with its tunnel open. */
  datatype Removal = Stop | Keep | Forget

  /**
   * RemoveWebsitesInNamespace's decision for a website of pod namespace
   * `podNamespace` as written: under the sentinel, a website of a namespace
   * that is still active is neither closed nor kept.
   */
  function FateAsWritten(podNamespace: string, namespace: string, active: seq<string>): Removal {
    if podNamespace == namespace then Stop
    else if namespace == AllNamespaces then (if podNamespace in active then Forget else Stop)
    else Keep
  }

  /** The decision as the code's comment means it: websites of still-active namespaces stay. */
  function Fate(podNamespace: string, namespace: string, active: seq<string>): (f: Removal)
    ensures f != Forget
  {
    if podNamespace == namespace then Stop
    else if namespace == AllNamespaces then (if podNamespace in active then Keep else Stop)
    else Keep
  }

  /**
   * Removing the sentinel while another namespace is active loses track of
   * that namespace's tunnels: they are never closed afterwards. The intended
   * decision keeps them; the two agree everywhere else.
   */
  lemma FateAsWrittenLeaks(podNamespace: string, active: seq<string>)
    requires podNamespace != AllNamespaces && podNamespace in active
    ensures FateAsWritten(podNamespace, AllNamespaces, active) == Forget
    ensures Fate(podNamespace, AllNamespaces, active) == Keep
  {
  }

  lemma FateAgreesOtherwise(podNamespace: string, namespace: string, active: seq<string>)
    requires FateAsWritten(podNamespace, namespace, active) != Forget
    ensures Fate(podNamespace, namespace, active) == FateAsWritten(podNamespace, namespace, active)
  {
  }

  /** The websites the registry keeps, in order. */
  function Kept(ws: seq<Website>, namespace: string, active: seq<string>): (r: seq<Website>)
    ensures forall i :: 0 <= i < |r| ==> r[i] in ws && Fate(r[i].pod.namespace, namespace, active) == Keep
    ensures forall i :: 0 <= i < |ws| && Fate(ws[i].pod.namespace, namespace, active) == Keep ==> ws[i] in r
  {
    if ws == [] then []
    else Kept(ws[..|ws| - 1], namespace, active)
         + (if Fate(ws[|ws| - 1].pod.namespace, namespace, active) == Keep then [ws[|ws| - 1]] else [])
  }

  /** The kept websites are a subsequence: distinct entries and distinct stops stay distinct. */
  lemma {:induction false} KeptValid(ws: seq<Website>, namespace: string, active: seq<string>)
    requires Apart(ws)
    ensures Apart(Kept(ws, namespace, active))
  {
    if ws != [] {
      var n := |ws|;
      KeptValid(ws[..n - 1], namespace, active);
      var prev := Kept(ws[..n - 1], namespace, active);
      assert Kept(ws, namespace, active)
          == prev + (if Fate(ws[n - 1].pod.namespace, namespace, active) == Keep then [ws[n - 1]] else []);
      forall i | 0 <= i < |prev| ensures prev[i] != ws[n - 1] && prev[i].stop != ws[n - 1].stop {
        assert prev[i] in ws[..n - 1];
        var k :| 0 <= k < n - 1 && ws[..n - 1][k] == prev[i];
        assert ws[k] == prev[i];
      }
      var r := Kept(ws, namespace, active);
      forall i, j | 0 <= i < j < |r| ensures r[i] != r[j] && r[i].stop != r[j].stop {
        if j < |prev| {
          assert r[i] == prev[i] && r[j] == prev[j];
          assert prev[i] != prev[j] && prev[i].stop != prev[j].stop;
        } else {
          assert r[i] == prev[i] && r[j] == ws[n - 1];
          assert prev[i] != ws[n - 1] && prev[i].stop != ws[n - 1].stop;
        }
      }
    }
  }

  /** The active namespaces other than `namespace`, in order. */
  function Without(active: seq<string>, namespace: string): (r: seq<string>)
    ensures forall n :: n in r <==> n in active && n != namespace
  {
    if active == [] then []
    else Without(active[..|active| - 1], namespace)
         + (if active[|active| - 1] != namespace then [active[|active| - 1]] else [])
  }

  /** The registered websites whose pod is in `namespace`, in order. */
  function InNamespace(ws: seq<Website>, namespace: string): (r: seq<Website>)
    ensures forall i :: 0 <= i < |r| ==> r[i] in ws && r[i].pod.namespace == namespace
    ensures forall i :: 0 <= i < |ws| && ws[i].pod.namespace == namespace ==> ws[i] in r
  {
    if ws == [] then []
    else InNamespace(ws[..|ws| - 1], namespace)
         + (if ws[|ws| - 1].pod.namespace == namespace then [ws[|ws| - 1]] else [])
  }

  /** GetWebsitesInNamespace answers from the registry when the sentinel or the namespace itself is already active. */
  predicate Skip(namespace: string, active: seq<string>) {
    namespace != AllNamespaces && exists n :: n in active && (n == AllNamespaces || n == namespace)
  }

  // ---------------------------------------------------------------------
  // Closing every forward: the registry's channel states
  // ---------------------------------------------------------------------

  /**
   * closeAllPortForwards on the closed-flags of the registry's stop signals,
   * as SetConfigPath and WailsShutdown use it: every flag is set and the
   * registry keeps its entries; None is the panic of closing a closed channel.
   */
  function CloseAllAsWritten(closed: seq<bool>): (r: Option<seq<bool>>)
    ensures r.Some? <==> forall i :: 0 <= i < |closed| ==> !closed[i]
    ensures r.Some? ==> |r.value| == |closed| && forall i :: 0 <= i < |r.value| ==> r.value[i]
  {
    if closed == [] then Some([])
    else if closed[0] then None
    else
      match CloseAllAsWritten(closed[1..])
      case None => None
      case Some(rest) => Some([true] + rest)
  }

  /**
   * As written, a second context switch (or the shutdown after one) closes
   * the same channels again and panics whenever the registry was not empty.
   */
  lemma {:induction false} SecondCloseAllPanics(closed: seq<bool>)
    requires closed != [] && forall i :: 0 <= i < |closed| ==> !closed[i]
    ensures CloseAllAsWritten(closed).Some?
    ensures CloseAllAsWritten(CloseAllAsWritten(closed).value) == None
  {
    var once := CloseAllAsWritten(closed).value;
    assert once[0];
  }

  // ---------------------------------------------------------------------
  // Kubernetes configuration and API answers
  // ---------------------------------------------------------------------

  /** What building a client for one kubeconfig context gives: no rest config, no clientset, or a client of `host`. */
  datatype ContextOutcome = NoRestConfig | NoClientSet | Usable(host: string)

  /** A loaded kubeconfig file: its contexts, each with the outcome of building a client for it. */
  datatype KubeConfig = KubeConfig(contexts: map<string, ContextOutcome>)

  datatype RestConfig = RestConfig(host: string)
  datatype ClientSet = ClientSet(host: string)

  /** The answers of the API server to the pod and service List calls, by namespace scope. */
  datatype Cluster = Cluster(pods: string -> Option<seq<Pod>>, services: string -> Option<seq<Service>>)

  /** The scope of the List calls: the sentinel lists every namespace (""). */
  function ListScope(namespace: string): (scope: string)
    ensures scope == "" <==> namespace == AllNamespaces || namespace == ""
  {
    if namespace == AllNamespaces then "" else namespace
  }

  /** clientcmd's ClientConfig and kubernetes.NewForConfig for `context`; an unknown context has no rest config. */
  function BuildFor(raw: KubeConfig, context: string): ContextOutcome {
    if context in raw.contexts then raw.contexts[context] else NoRestConfig
  }

  /**
   * `ws` are the websites forwardAndGetIconsForWebsitesInNamespace answers
   * for `namespace` while `active` are the active namespaces: both listings
   * succeed and `ws` are forwarded for the discovered pairs, the k-th pair
   * meeting attempt k.
   */
  predicate ListedAndForwarded(ws: seq<Website>, namespace: string, cluster: Cluster,
                                     attempts: nat -> Attempt, active: seq<string>)
  {
    && cluster.pods(ListScope(namespace)).Some? && cluster.services(ListScope(namespace)).Some?
    && var pairs := Discover(cluster.pods(ListScope(namespace)).value, cluster.services(ListScope(namespace)).value,
                             namespace, active);
       ForwardedAs(ws, pairs, Outcomes(attempts, |pairs|))
  }

  // ---------------------------------------------------------------------
  // The client
  // ---------------------------------------------------------------------

  class Client {
    var s: ClientSet
    var conf: RestConfig
    var rawConf: KubeConfig
    var configPath: string
    var currentContext: string
    var websites: seq<Website>
    var activeNamespaces: seq<string>

    /** `&client.Client{}`: no configuration yet and an empty registry. */
    constructor ()
      ensures websites == [] && activeNamespaces == [] && configPath == "" && currentContext == ""
      ensures Valid() && Live()
    {
      s, conf, rawConf := ClientSet(""), RestConfig(""), KubeConfig(map[]);
      configPath, currentContext := "", "";
      websites, activeNamespaces := [], [];
    }

    /** The registry holds forwarded websites, each once, each with its own stop signal. */
    ghost predicate Valid()
      reads this
    {
      && (forall i :: 0 <= i < |websites| ==> websites[i].isForwarded && websites[i].stop != null)
      && Apart(websites)
    }

    /** Every registered tunnel is still open. */
    ghost predicate Live()
      reads this, StopsOf(websites)
    {
      forall i :: 0 <= i < |websites| ==> websites[i].stop != null && !websites[i].stop.closed
    }

    // -- discovery ---------------------------------------------------------

    /** The inner `for _, x := range xs { if x == v ...` scans of the pod loop. */
    method Contains<T(==)>(xs: seq<T>, v: T) returns (found: bool)
      ensures found <==> v in xs
    {
      found := false;
      var h := 0;
      while h < |xs| && !found
        invariant 0 <= h <= |xs|
        invariant found <==> v in xs[..h]
      {
        if xs[h] == v {
          found := true;
        }
        h := h + 1;
      }
      if !found {
        assert xs[..h] == xs;
      }
    }

    /** The selector loop of handleServicesInPod: counts the matching labels and compares with the selector's size. */
    method SelectorMatches(svc: Service, pod: Pod) returns (matches: bool)
      ensures matches <==> Selects(svc, pod)
    {
      var matchCount := 0;
      var todo := svc.selector.Keys;
      ghost var done: set<string> := {};
      while todo != {}
        invariant todo + done == svc.selector.Keys && todo !! done
        invariant matchCount <= |done|
        invariant matchCount == |done| <==> forall k :: k in done ==> Label(pod, k) == svc.selector[k]
        decreases |todo|
      {
        var k :| k in todo;
        if Label(pod, k) == svc.selector[k] {
          matchCount := matchCount + 1;
        }
        todo := todo - {k};
        done := done + {k};
      }
      assert done == svc.selector.Keys;
      matches := matchCount == |svc.selector|;
    }

    /**
     * handleServicesInPod: launches one forward per target port of every
     * selecting service, skipping ports already handled, and answers the
     * handled ports. `launched` lists the launches in order.
     */
    method HandleServicesInPod(services: seq<Service>, pod: Pod) returns (handledPorts: seq<int>, launched: seq<Pair>)
      ensures launched == ServicePairs(services, pod)
      ensures handledPorts == PortsOf(launched)
    {
      handledPorts, launched := [], [];
      var i := 0;
      while i < |services|
        invariant 0 <= i <= |services|
        invariant ServicePairsFrom(services[i..], pod, launched) == ServicePairs(services, pod)
        invariant handledPorts == PortsOf(launched)
      {
        var svc := services[i];
        assert services[i..][1..] == services[i + 1..];
        var matches := SelectorMatches(svc, pod);
        if matches {
          ghost var before := launched;
          var ports := svc.targetPorts;
          var j := 0;
          while j < |ports|
            invariant 0 <= j <= |ports|
            invariant PortPairs(svc, pod, ports[j..], launched) == PortPairs(svc, pod, ports, before)
            invariant handledPorts == PortsOf(launched)
          {
            var port := ports[j];
            var seen := Contains(handledPorts, port);
            assert ports[j..][1..] == ports[j + 1..];
            if !seen {
              PortsOfAppend(launched, Pair(pod, port, svc.name, FromService));
              handledPorts := handledPorts + [port];
              launched := launched + [Pair(pod, port, svc.name, FromService)];
            }
            j := j + 1;
          }
        }
        i := i + 1;
      }
    }

    /**
     * handleContainerPortsInPod: launches one forward per container port
     * not among `handledPorts`, container by container.
     */
    method HandleContainerPortsInPod(pod: Pod, handledPorts: seq<int>) returns (launched: seq<Pair>)
      ensures launched == ContainerPairs(pod.containers, pod, handledPorts)
    {
      launched := [];
      var cs := pod.containers;
      var i := 0;
      while i < |cs|
        invariant 0 <= i <= |cs|
        invariant launched + ContainerPairs(cs[i..], pod, handledPorts) == ContainerPairs(cs, pod, handledPorts)
      {
        assert cs[i..][1..] == cs[i + 1..];
        var fromContainer := HandleContainerPorts(cs[i], pod, handledPorts);
        ghost var rest := ContainerPairs(cs[i + 1..], pod, handledPorts);
        assert launched + (fromContainer + rest) == (launched + fromContainer) + rest;
        launched := launched + fromContainer;
        i := i + 1;
      }
    }

    /** The `cpLoop` of handleContainerPortsInPod for one container: its ports not handled yet, in order. */
    method HandleContainerPorts(c: Container, pod: Pod, handledPorts: seq<int>) returns (launched: seq<Pair>)
      ensures launched == ContainerPortPairs(c, pod, c.ports, handledPorts)
    {
      launched := [];
      var j := 0;
      assert c.ports[0..] == c.ports;
      while j < |c.ports|
        invariant 0 <= j <= |c.ports|
        invariant launched + ContainerPortPairs(c, pod, c.ports[j..], handledPorts) == ContainerPortPairs(c, pod, c.ports, handledPorts)
      {
        var port := c.ports[j];
        var seen := Contains(handledPorts, port);
        ghost var head := if seen then [] else [Pair(pod, port, c.name, FromContainer)];
        ghost var tail := ContainerPortPairs(c, pod, c.ports[j + 1..], handledPorts);
        assert c.ports[j..][1..] == c.ports[j + 1..];
        assert ContainerPortPairs(c, pod, c.ports[j..], handledPorts) == head + tail;
        assert launched + (head + tail) == (launched + head) + tail;
        ghost var before := launched;
        if !seen {
          launched := launched + [Pair(pod, port, c.name, FromContainer)];
        }
        assert launched == before + head;
        j := j + 1;
      }
      assert c.ports[j..] == [];
    }

    /** The owner loop of the pod loop: claims replica owners in turn, stopping at the first already claimed. */
    method ClaimReplicaOwners(pod: Pod, claimed: seq<string>) returns (skip: bool, claimedAfter: seq<string>)
      ensures (skip, claimedAfter) == ClaimOwners(pod.owners, claimed)
    {
      var owners := pod.owners;
      claimedAfter := claimed;
      var i := 0;
      while i < |owners|
        invariant 0 <= i <= |owners|
        invariant ClaimOwners(owners[i..], claimedAfter) == ClaimOwners(owners, claimed)
      {
        var owner := owners[i];
        assert owners[i..][1..] == owners[i + 1..];
        if IsReplicaOwner(owner) {
          var seen := false;
          var h := 0;
          while h < |claimedAfter| && !seen
            invariant 0 <= h <= |claimedAfter|
            invariant seen <==> owner.name in claimedAfter[..h]
          {
            if claimedAfter[h] == owner.name {
              seen := true;
            }
            h := h + 1;
          }
          if seen {
            return true, claimedAfter;
          }
          assert claimedAfter[..h] == claimedAfter;
          claimedAfter := claimedAfter + [owner.name];
        }
        i := i + 1;
      }
      skip := false;
    }

    /** The first check of the pod loop: under the sentinel, pods of namespaces that are active on their own are skipped. */
    method OutOfScope(pod: Pod, namespace: string) returns (outOfScope: bool)
      ensures outOfScope <==> SkippedByScope(namespace, activeNamespaces, pod)
    {
      outOfScope := false;
      if namespace == AllNamespaces {
        var j := 0;
        while j < |activeNamespaces| && !outOfScope
          invariant 0 <= j <= |activeNamespaces|
          invariant outOfScope <==> pod.namespace in activeNamespaces[..j] && pod.namespace != namespace
        {
          assert activeNamespaces[..j + 1] == activeNamespaces[..j] + [activeNamespaces[j]];
          if activeNamespaces[j] != namespace && activeNamespaces[j] == pod.namespace {
            outOfScope := true;
          }
          j := j + 1;
        }
        if !outOfScope {
          assert activeNamespaces[..j] == activeNamespaces;
        }
      }
      if outOfScope {
        assert pod.namespace in activeNamespaces && pod.namespace != namespace;
      }
    }

    /**
     * The pod loop of forwardAndGetIconsForWebsitesInNamespace: for every
     * representative pod, the forwards launched for its service ports and
     * then for its other container ports.
     */
    method LaunchForwards(pods: seq<Pod>, services: seq<Service>, namespace: string) returns (launched: seq<Pair>)
      ensures launched == Discover(pods, services, namespace, activeNamespaces)
    {
      var handledControllers: seq<string> := [];
      launched := [];
      var i := 0;
      while i < |pods|
        invariant 0 <= i <= |pods|
        invariant launched + PairsOfPods(Representatives(pods[i..], namespace, activeNamespaces, handledControllers), services)
                  == Discover(pods, services, namespace, activeNamespaces)
      {
        assert pods[i..][1..] == pods[i + 1..];
        RepresentativesStep(pods[i..], namespace, activeNamespaces, handledControllers);
        var fromPod, claimedAfter := LaunchForPod(pods[i], services, namespace, handledControllers);
        ghost var rest := Representatives(pods[i + 1..], namespace, activeNamespaces, claimedAfter);
        PairsOfPodsTurn(PodStep(pods[i], namespace, activeNamespaces, handledControllers).0, rest, services);
        assert launched + (fromPod + PairsOfPods(rest, services)) == (launched + fromPod) + PairsOfPods(rest, services);
        launched := launched + fromPod;
        handledControllers := claimedAfter;
        i := i + 1;
      }
    }

    /** One turn of the pod loop: the checks that skip the pod, the owner claims, then its service and container ports. */
    method LaunchForPod(pod: Pod, services: seq<Service>, namespace: string, claimed: seq<string>)
      returns (launched: seq<Pair>, claimedAfter: seq<string>)
      ensures launched == PairsOfPods(PodStep(pod, namespace, activeNamespaces, claimed).0, services)
      ensures claimedAfter == PodStep(pod, namespace, activeNamespaces, claimed).1
    {
      launched, claimedAfter := [], claimed;
      var outOfScope := OutOfScope(pod, namespace);
      if outOfScope || pod.phase != "Running" || pod.deleting {
        return;
      }
      var skip;
      skip, claimedAfter := ClaimReplicaOwners(pod, claimed);
      if skip {
        return;
      }
      var handledPorts, fromServices := HandleServicesInPod(services, pod);
      var fromContainers := HandleContainerPortsInPod(pod, handledPorts);
      launched := fromServices + fromContainers;
      assert [pod][1..] == [];
    }

    // -- forwarding ---------------------------------------------------------

    /**
     * getWebsiteForPort: a free local port, a tunnel that becomes ready, and
     * an icon from the forwarded page. `stop` is the tunnel's stop signal,
     * allocated once a free port is found; a failed attempt closes it, and
     * the website of a successful one holds it open.
     */
    method GetWebsiteForPort(pod: Pod, containerPort: int, a: Attempt) returns (r: Result<Website>, stop: StopSignal?)
      ensures r.Ok? <==> Succeeds(a)
      ensures a.NoFreePort? <==> stop == null
      ensures stop != null ==> fresh(stop)
      ensures r.Err? && stop != null ==> stop.closed
      ensures r.Ok? ==> fresh(r.value) && r.value.stop == stop && !stop.closed && BuiltFor(r.value, pod, containerPort, a)
      ensures r.Ok? ==> r.value.Public() == NoDetails
    {
      if a.NoFreePort? {
        return Err("no free local port"), null;
      }
      stop := new StopSignal();
      if a.TimedOut? {
        stop.Close();
        return Err("timed out of portforward after 10 seconds"), stop;
      }
      SucceedsIffBest(a);
      var best := GetBest(LocalUrl(a.localPort), a.page, a.web);
      if best.Err? {
        stop.Close();
        return Err(best.error), stop;
      }
      var website := new Website.Forwarded(pod, stop, a.localPort, containerPort, best.value);
      return Ok(website), stop;
    }

    /**
     * handleWebsiteAdding: the website for the pair, or the empty placeholder
     * when it could not be forwarded. `stop` is the stop signal the attempt
     * allocated, if any: closed exactly when the attempt failed.
     */
    method HandleWebsiteAdding(q: Pair, a: Attempt) returns (w: Website, ghost stop: StopSignal?)
      ensures fresh(w) && w.Public() == NoDetails
      ensures w.isForwarded <==> Succeeds(a)
      ensures w.isForwarded ==> fresh(w.stop) && BuiltFor(w, q.pod, q.port, a) && !w.stop.closed
      ensures !w.isForwarded ==> w.stop == null
      ensures a.NoFreePort? <==> stop == null
      ensures stop != null ==> fresh(stop) && (stop.closed <==> !Succeeds(a))
      ensures w.isForwarded ==> w.stop == stop
    {
      var ws;
      ws, stop := GetWebsiteForPort(q.pod, q.port, a);
      if ws.Err? {
        w := new Website.Empty();
      } else {
        w := ws.value;
      }
    }

    /**
     * The goroutines forwardAndGetIconsForWebsitesInNamespace launched, run
     * in launch order: each runs handleWebsiteAdding for its pair and queues
     * the result. `stops` are the stop signals the attempts allocated: one
     * for every attempt that found a free port, closed exactly when the
     * attempt failed.
     */
    method RunLaunched(launched: seq<Pair>, outcomes: seq<Attempt>) returns (queue: seq<Website>, ghost stops: seq<StopSignal?>)
      requires |outcomes| == |launched|
      ensures |queue| == |launched| && |stops| == |launched|
      ensures forall j :: 0 <= j < |stops| ==> (outcomes[j].NoFreePort? <==> stops[j] == null)
      ensures forall j :: 0 <= j < |stops| && stops[j] != null ==> fresh(stops[j]) && (stops[j].closed <==> !Succeeds(outcomes[j]))
      ensures forall j :: 0 <= j < |queue| && queue[j].isForwarded ==> queue[j].stop == stops[j]
      ensures forall j :: 0 <= j < |queue| ==> Queued(queue[j], launched[j], outcomes[j])
      ensures forall j :: 0 <= j < |queue| ==> fresh(queue[j]) && queue[j].Public() == NoDetails
      ensures forall j :: 0 <= j < |queue| && queue[j].isForwarded ==> fresh(queue[j].stop) && !queue[j].stop.closed
      ensures forall j, j' :: 0 <= j < j' < |queue| ==> queue[j] != queue[j']
      ensures forall j, j' :: 0 <= j < j' < |queue| && queue[j].isForwarded && queue[j'].isForwarded ==>
                queue[j].stop != queue[j'].stop
    {
      queue, stops := [], [];
      var k := 0;
      while k < |launched|
        invariant 0 <= k <= |launched| && |queue| == k && |stops| == k
        invariant forall j :: 0 <= j < k ==> Settled(queue[j], stops[j], launched[j], outcomes[j])
        invariant forall j :: 0 <= j < k && stops[j] != null ==> fresh(stops[j])
        invariant forall j :: 0 <= j < k ==> fresh(queue[j]) && queue[j].Public() == NoDetails
        invariant forall j, j' :: 0 <= j < j' < k ==> queue[j] != queue[j']
        invariant forall j, j' :: 0 <= j < j' < k && stops[j] != null ==> stops[j] != stops[j']
      {
        var w;
        ghost var stop;
        w, stop := HandleWebsiteAdding(launched[k], outcomes[k]);
        ghost var prev, prevStops := queue, stops;
        queue, stops := queue + [w], stops + [stop];
        assert forall j :: 0 <= j < k ==> queue[j] == prev[j] && stops[j] == prevStops[j];
        k := k + 1;
      }
    }

    /** The queue reader: keeps the forwarded websites, in the order they were queued. */
    method ReadQueue(queue: seq<Website>) returns (nsWebsites: seq<Website>)
      ensures nsWebsites == ForwardedOnly(queue)
    {
      nsWebsites := [];
      var i := 0;
      while i < |queue|
        invariant 0 <= i <= |queue|
        invariant nsWebsites == ForwardedOnly(queue[..i])
      {
        assert queue[..i + 1][..i] == queue[..i];
        if queue[i].isForwarded {
          nsWebsites := nsWebsites + [queue[i]];
        }
        i := i + 1;
      }
      assert queue[..i] == queue;
    }

    /** The launched forwards run to completion and the reader drains the queue. */
    method CollectForwarded(launched: seq<Pair>, outcomes: seq<Attempt>) returns (nsWebsites: seq<Website>)
      requires |outcomes| == |launched|
      ensures ForwardedAs(nsWebsites, launched, outcomes)
      ensures forall m :: 0 <= m < |nsWebsites| ==>
                fresh(nsWebsites[m]) && fresh(nsWebsites[m].stop) && !nsWebsites[m].stop.closed
                && nsWebsites[m].Public() == NoDetails
    {
      var queue, stops := RunLaunched(launched, outcomes);
      nsWebsites := ReadQueue(queue);
      ForwardedOnlyAt(queue, outcomes);
      SuccessesExactly(outcomes);
    }

    /**
     * forwardAndGetIconsForWebsitesInNamespace: lists the pods and services of
     * the namespace (of every namespace under the sentinel), launches a
     * forward per discovered pair and collects the websites that were
     * forwarded. Either listing failing is an error.
     */
    method ForwardAndGetIcons(namespace: string, cluster: Cluster, attempts: nat -> Attempt) returns (r: Result<seq<Website>>)
      ensures r.Err? <==> cluster.pods(ListScope(namespace)).None? || cluster.services(ListScope(namespace)).None?
      ensures r.Ok? ==> ListedAndForwarded(r.value, namespace, cluster, attempts, activeNamespaces)
      ensures r.Ok? ==> forall m :: 0 <= m < |r.value| ==>
                          fresh(r.value[m]) && fresh(r.value[m].stop) && !r.value[m].stop.closed
                          && r.value[m].Public() == NoDetails
    {
      var scope := if namespace == AllNamespaces then "" else namespace;
      var pods := cluster.pods(scope);
      if pods.None? {
        return Err("failed to get pods");
      }
      var services := cluster.services(scope);
      if services.None? {
        return Err("failed to get services");
      }
      var launched := LaunchForwards(pods.value, services.value, namespace);
      var nsWebsites := CollectForwarded(launched, Outcomes(attempts, |launched|));
      r := Ok(nsWebsites);
    }

    // -- the registry --------------------------------------------------------

    /**
     * addDerivedDetailsToWebsites: every registered website that has no title
     * yet takes its details from its icon and its pod.
     */
    method AddDerivedDetailsToWebsites()
      requires Valid()
      modifies websites
      ensures forall i :: 0 <= i < |websites| ==>
                websites[i].Public() == Derive(old(websites[i].Public()), websites[i].pod, websites[i].icon)
    {
      var i := 0;
      while i < |websites|
        invariant 0 <= i <= |websites|
        invariant forall j :: 0 <= j < i ==>
                    websites[j].Public() == Derive(old(websites[j].Public()), websites[j].pod, websites[j].icon)
        invariant forall j :: i <= j < |websites| ==> websites[j].Public() == old(websites[j].Public())
      {
        websites[i].AddDerivedDetails();
        i := i + 1;
      }
    }

    /** The scan of GetWebsitesInNamespace that decides whether the namespace is already served. */
    method AlreadyServed(namespace: string) returns (skip: bool)
      ensures skip <==> Skip(namespace, activeNamespaces)
    {
      skip := false;
      if namespace != AllNamespaces {
        var h := 0;
        while h < |activeNamespaces| && !skip
          invariant 0 <= h <= |activeNamespaces|
          invariant skip <==> exists j :: 0 <= j < h && (activeNamespaces[j] == AllNamespaces || activeNamespaces[j] == namespace)
        {
          if activeNamespaces[h] == AllNamespaces || activeNamespaces[h] == namespace {
            skip := true;
          }
          h := h + 1;
        }
        if skip {
          var j :| 0 <= j < h && (activeNamespaces[j] == AllNamespaces || activeNamespaces[j] == namespace);
          assert activeNamespaces[j] in activeNamespaces;
        }
      }
    }

    /** The registry lookup of GetWebsitesInNamespace for an already served namespace. */
    method RegisteredIn(namespace: string) returns (nsWebsites: seq<Website>)
      ensures nsWebsites == InNamespace(websites, namespace)
    {
      nsWebsites := [];
      var i := 0;
      while i < |websites|
        invariant 0 <= i <= |websites|
        invariant nsWebsites == InNamespace(websites[..i], namespace)
      {
        assert websites[..i + 1][..i] == websites[..i];
        if websites[i].pod.namespace == namespace {
          nsWebsites := nsWebsites + [websites[i]];
        }
        i := i + 1;
      }
      assert websites[..i] == websites;
    }

    /**
     * GetWebsitesInNamespace: a namespace that is already served (itself or
     * through the sentinel) is answered from the registry; otherwise its
     * websites are forwarded, registered and given their derived details.
     * A failed listing answers nothing and changes nothing. Either way the
     * namespace is appended to the active list.
     */
    method GetWebsitesInNamespace(namespace: string, cluster: Cluster, attempts: nat -> Attempt) returns (r: Option<seq<Website>>)
      requires Valid() && Live()
      modifies this, websites
      ensures Valid() && Live()
      ensures s == old(s) && conf == old(conf) && rawConf == old(rawConf)
      ensures configPath == old(configPath) && currentContext == old(currentContext)
      ensures Skip(namespace, old(activeNamespaces)) ==>
                && r == Some(InNamespace(old(websites), namespace))
                && websites == old(websites) && activeNamespaces == old(activeNamespaces) + [namespace]
                && forall i :: 0 <= i < |websites| ==> websites[i].Public() == old(websites[i].Public())
      ensures !Skip(namespace, old(activeNamespaces))
              && (cluster.pods(ListScope(namespace)).None? || cluster.services(ListScope(namespace)).None?) ==>
                && r.None?
                && websites == old(websites) && activeNamespaces == old(activeNamespaces)
                && forall i :: 0 <= i < |websites| ==> websites[i].Public() == old(websites[i].Public())
      ensures !Skip(namespace, old(activeNamespaces))
              && cluster.pods(ListScope(namespace)).Some? && cluster.services(ListScope(namespace)).Some? ==>
                && r.Some?
                && websites == old(websites) + r.value && activeNamespaces == old(activeNamespaces) + [namespace]
                && ListedAndForwarded(r.value, namespace, cluster, attempts, old(activeNamespaces))
                && (forall i :: 0 <= i < |old(websites)| ==>
                      websites[i].Public() == Derive(old(websites[i].Public()), websites[i].pod, websites[i].icon))
                && (forall i :: |old(websites)| <= i < |websites| ==>
                      websites[i].Public() == Derive(NoDetails, websites[i].pod, websites[i].icon))
    {
      var skip := AlreadyServed(namespace);
      if skip {
        var nsWebsites := RegisteredIn(namespace);
        r := Some(nsWebsites);
      } else {
        r := ForwardNamespace(namespace, cluster, attempts);
        if r.None? {
          return;
        }
      }
      activeNamespaces := activeNamespaces + [namespace];
    }

    /** The branch of GetWebsitesInNamespace that forwards a namespace not served yet. */
    method ForwardNamespace(namespace: string, cluster: Cluster, attempts: nat -> Attempt) returns (r: Option<seq<Website>>)
      requires Valid() && Live()
      modifies this, websites
      ensures Valid() && Live() && activeNamespaces == old(activeNamespaces)
      ensures s == old(s) && conf == old(conf) && rawConf == old(rawConf)
      ensures configPath == old(configPath) && currentContext == old(currentContext)
      ensures cluster.pods(ListScope(namespace)).None? || cluster.services(ListScope(namespace)).None? ==>
                && r.None? && websites == old(websites)
                && forall i :: 0 <= i < |websites| ==> websites[i].Public() == old(websites[i].Public())
      ensures cluster.pods(ListScope(namespace)).Some? && cluster.services(ListScope(namespace)).Some? ==>
                && r.Some?
                && websites == old(websites) + r.value
                && ListedAndForwarded(r.value, namespace, cluster, attempts, activeNamespaces)
                && (forall i :: 0 <= i < |old(websites)| ==>
                      websites[i].Public() == Derive(old(websites[i].Public()), websites[i].pod, websites[i].icon))
                && (forall i :: |old(websites)| <= i < |websites| ==>
                      websites[i].Public() == Derive(NoDetails, websites[i].pod, websites[i].icon))
    {
      var fetched := ForwardAndGetIcons(namespace, cluster, attempts);
      if fetched.Err? {
        return None;
      }
      ApartAppend(websites, fetched.value);
      Register(fetched.value);
      AddDerivedDetailsToWebsites();
      r := Some(fetched.value);
    }

    /** `c.websites = append(c.websites, nsWebsites...)` for freshly forwarded websites. */
    method Register(nsWebsites: seq<Website>)
      requires Valid() && Live()
      requires Apart(websites + nsWebsites)
      requires forall m :: 0 <= m < |nsWebsites| ==>
                 nsWebsites[m].isForwarded && nsWebsites[m].stop != null && !nsWebsites[m].stop.closed
      modifies this
      ensures websites == old(websites) + nsWebsites
      ensures activeNamespaces == old(activeNamespaces) && s == old(s) && conf == old(conf) && rawConf == old(rawConf)
      ensures configPath == old(configPath) && currentContext == old(currentContext)
      ensures Valid() && Live()
    {
      websites := websites + nsWebsites;
    }

    /**
     * RemoveWebsitesInNamespace with the decision its comment intends
     * (`Fate`): the tunnels of `namespace` (under the sentinel, of every
     * namespace that is no longer active) are closed and leave the registry;
     * every other website stays, open; the namespace leaves the active list.
     */
    method RemoveWebsitesInNamespace(namespace: string)
      requires Valid() && Live()
      modifies this, StopsOf(websites)
      ensures websites == Kept(old(websites), namespace, old(activeNamespaces))
      ensures activeNamespaces == Without(old(activeNamespaces), namespace)
      ensures forall i :: 0 <= i < |old(websites)| ==>
                (old(websites)[i].stop.closed <==> Fate(old(websites)[i].pod.namespace, namespace, old(activeNamespaces)) == Stop)
      ensures Valid() && Live()
      ensures s == old(s) && conf == old(conf) && rawConf == old(rawConf)
      ensures configPath == old(configPath) && currentContext == old(currentContext)
    {
      var newWebsites := StopRemoved(websites, namespace, activeNamespaces);
      var newNamespaces := WithoutNamespace(activeNamespaces, namespace);
      KeptValid(websites, namespace, activeNamespaces);
      activeNamespaces := newNamespaces;
      websites := newWebsites;
    }

    /**
     * The website loop of RemoveWebsitesInNamespace: closes the stop signal of
     * every website whose fate is Stop and keeps the others, in order.
     */
    method StopRemoved(registered: seq<Website>, namespace: string, active: seq<string>) returns (newWebsites: seq<Website>)
      requires forall j :: 0 <= j < |registered| ==> registered[j].stop != null && !registered[j].stop.closed
      requires forall j, j' :: 0 <= j < j' < |registered| ==> registered[j].stop != registered[j'].stop
      modifies StopsOf(registered)
      ensures newWebsites == Kept(registered, namespace, active)
      ensures forall j :: 0 <= j < |registered| ==>
                (registered[j].stop.closed <==> Fate(registered[j].pod.namespace, namespace, active) == Stop)
    {
      newWebsites := [];
      var i := 0;
      while i < |registered|
        invariant 0 <= i <= |registered|
        invariant newWebsites == Kept(registered[..i], namespace, active)
        invariant forall j :: 0 <= j < i ==>
                    (registered[j].stop.closed <==> Fate(registered[j].pod.namespace, namespace, active) == Stop)
        invariant forall j :: i <= j < |registered| ==> !registered[j].stop.closed
      {
        assert registered[..i + 1][..i] == registered[..i];
        var website := registered[i];
        if website.pod.namespace == namespace {
          website.stop.Close();
        } else if namespace == AllNamespaces {
          var stillActive := Contains(active, website.pod.namespace);
          if !stillActive {
            website.stop.Close();
          } else {
            newWebsites := newWebsites + [website];
          }
        } else {
          newWebsites := newWebsites + [website];
        }
        i := i + 1;
      }
      assert registered[..i] == registered;
    }

    /** The namespace loop of RemoveWebsitesInNamespace: every active namespace but `namespace`, in order. */
    method WithoutNamespace(active: seq<string>, namespace: string) returns (newNamespaces: seq<string>)
      ensures newNamespaces == Without(active, namespace)
    {
      newNamespaces := [];
      var n := 0;
      while n < |active|
        invariant 0 <= n <= |active|
        invariant newNamespaces == Without(active[..n], namespace)
      {
        assert active[..n + 1][..n] == active[..n];
        if active[n] != namespace {
          newNamespaces := newNamespaces + [active[n]];
        }
        n := n + 1;
      }
      assert active[..n] == active;
    }

    /** closeAllPortForwards: closes the stop signal of every registered website. */
    method CloseAllPortForwards()
      requires Valid() && Live()
      modifies StopsOf(websites)
      ensures forall i :: 0 <= i < |websites| ==> websites[i].stop.closed
    {
      var i := 0;
      while i < |websites|
        invariant 0 <= i <= |websites|
        invariant forall j :: 0 <= j < i ==> websites[j].stop.closed
        invariant forall j :: i <= j < |websites| ==> !websites[j].stop.closed
      {
        websites[i].stop.Close();
        i := i + 1;
      }
    }

    /** WailsShutdown: every forward still registered is stopped. */
    method WailsShutdown()
      requires Valid() && Live()
      modifies StopsOf(websites)
      ensures forall i :: 0 <= i < |websites| ==> websites[i].stop.closed
    {
      CloseAllPortForwards();
    }

    // -- configuration -------------------------------------------------------

    /**
     * SetConfigPath, with `loaded` the outcome of loading `configPath` (None
     * when the file does not load). A new path takes one of its contexts
     * (Go's map order: any of them, or "" when there is none); the same path
     * takes `context`, and changes nothing when that is the current one. When
     * a client can be built for the chosen context, every forward is closed
     * and the registry is emptied (the code as written keeps the closed
     * websites; see `SecondCloseAllPanics`), and the client switches over.
     * The answer is the resulting path and context.
     */
    method SetConfigPath(configPath: string, context: string, loaded: Option<KubeConfig>)
      returns (r: seq<string>, ghost useContext: string)
      requires Valid() && Live()
      modifies this, StopsOf(websites)
      ensures r == [this.configPath, currentContext]
      ensures Valid() && Live()
      ensures configPath != old(this.configPath) && loaded.Some? ==>
                useContext in loaded.value.contexts || (loaded.value.contexts == map[] && useContext == "")
      ensures configPath == old(this.configPath) ==> useContext == context
      ensures var raw := if configPath != old(this.configPath) && loaded.Some? then loaded.value else old(rawConf);
              && (configPath != old(this.configPath) ==> loaded.Some?)
              && (configPath == old(this.configPath) ==> context != old(currentContext))
              && BuildFor(raw, useContext).Usable?
              ==>
              && this.configPath == configPath && currentContext == useContext && rawConf == raw
              && s == ClientSet(BuildFor(raw, useContext).host) && conf == RestConfig(BuildFor(raw, useContext).host)
              && websites == [] && activeNamespaces == old(activeNamespaces)
              && forall i :: 0 <= i < |old(websites)| ==> old(websites)[i].stop.closed
      ensures var raw := if configPath != old(this.configPath) && loaded.Some? then loaded.value else old(rawConf);
              !(&& (configPath != old(this.configPath) ==> loaded.Some?)
                && (configPath == old(this.configPath) ==> context != old(currentContext))
                && BuildFor(raw, useContext).Usable?)
              ==>
              unchanged(this)
    {
      var rawConfig: KubeConfig;
      var chosen: string;
      if configPath != this.configPath {
        if loaded.None? {
          return [this.configPath, currentContext], "";
        }
        rawConfig := loaded.value;
        if rawConfig.contexts != map[] {
          chosen :| chosen in rawConfig.contexts;
        } else {
          chosen := "";
        }
      } else {
        rawConfig := rawConf;
        chosen := context;
        if chosen == currentContext {
          return [this.configPath, currentContext], chosen;
        }
      }
      useContext := chosen;
      var built := BuildFor(rawConfig, chosen);
      if !built.Usable? {
        return [this.configPath, currentContext], useContext;
      }
      CloseAllPortForwards();
      websites := [];
      rawConf := rawConfig;
      currentContext := chosen;
      s := ClientSet(built.host);
      this.configPath := configPath;
      conf := RestConfig(built.host);
      r := [configPath, chosen];
    }

    /** GetAvailableContexts: the names of the loaded configuration's contexts, each once, in map order. */
    method GetAvailableContexts() returns (contexts: array<string>)
      ensures fresh(contexts)
      ensures contexts.Length == |rawConf.contexts|
      ensures forall k :: k in rawConf.contexts <==> k in contexts[..]
      ensures forall i, j :: 0 <= i < j < contexts.Length ==> contexts[i] != contexts[j]
    {
      var keys := rawConf.contexts.Keys;
      contexts := new string[|keys|];
      var remaining := keys;
      var i := 0;
      while remaining != {}
        invariant remaining <= keys && i + |remaining| == |keys|
        invariant forall j :: 0 <= j < i ==> contexts[j] in keys && contexts[j] !in remaining
        invariant forall k :: k in keys ==> k in remaining || k in contexts[..i]
        invariant forall j, j' :: 0 <= j < j' < i ==> contexts[j] != contexts[j']
      {
        var k :| k in remaining;
        ghost var filled := contexts[..i];
        contexts[i] := k;
        assert contexts[..i + 1] == filled + [k];
        remaining := remaining - {k};
        i := i + 1;
      }
      assert contexts[..i] == contexts[..];
    }
  }
}
