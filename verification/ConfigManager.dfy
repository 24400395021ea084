/** The config manager of internal/config/manager.go, one call at a time: the atomically held config,
    the capacity-1 reload channel, and the event loop that keeps one debounce timer. */
module ConfigManagement {
  import opened Prelude
  import opened Routes
  import opened HotReload

  /** What happens to the event loop: the cases of its select, and the moments at which a timer that is
      running becomes due. */
  datatype Notice =
    | FileEvent(at: int, aboutConfig: bool, writeOrCreate: bool)
    | TimerDue
    | WatcherError
    | ManagerDone
    | ChannelClosed      // of events or of errors

  /** Position i holds the latest event before n that writes or creates the config file, and no timer has
      become due since. */
  ghost predicate LatestEdit(notices: seq<Notice>, i: int, n: int)
    requires n <= |notices|
  {
    && 0 <= i < n && notices[i].FileEvent? && notices[i].aboutConfig && notices[i].writeOrCreate
    && forall j | i < j < n ::
         !notices[j].TimerDue? && !(notices[j].FileEvent? && notices[j].aboutConfig && notices[j].writeOrCreate)
  }

  class ConfigManager {
    var config: seq<Route>
    var reloadCh: nat      // signals in the channel, at most one
    var done: bool

    constructor (config: seq<Route>)
      ensures this.config == config && reloadCh == 0 && !done
    {
      this.config, reloadCh, done := config, 0, false;
    }

    /** reload, with the outcome of loading the file. An invalid file keeps the config in force. */
    method Reload(loaded: Option<seq<Route>>)
      requires reloadCh <= 1
      modifies this`config, this`reloadCh
      ensures done || loaded.None? ==> config == old(config) && reloadCh == old(reloadCh)
      ensures !done && loaded.Some? ==> config == loaded.value && reloadCh == 1
    {
      if done {
        return;
      }
      if loaded.None? {
        return;
      }
      config := loaded.value;
      if reloadCh < 1 {
        reloadCh := reloadCh + 1;
      }
    }

    /** The event loop. A reload begins for each relevant event that is not followed by another before
        its timer is due; the timer left running is that of the last relevant event, and none is left
        once the loop has ended. */
    method Watch(notices: seq<Notice>) returns (timer: Option<int>, ended: bool, reloads: set<int>)
      ensures ended <==> exists i | 0 <= i < |notices| :: notices[i].ManagerDone? || notices[i].ChannelClosed?
      ensures ended ==> timer.None?
      ensures !ended ==> (timer.Some? <==> exists i :: LatestEdit(notices, i, |notices|))
      ensures timer.Some? ==> exists i :: LatestEdit(notices, i, |notices|) && timer.value == notices[i].at + 1_000_000_000
      ensures forall n :: n in reloads <==>
                && 0 <= n < |notices| && notices[n].TimerDue?
                && (exists i :: LatestEdit(notices, i, n))
                && forall j | 0 <= j < n :: !notices[j].ManagerDone? && !notices[j].ChannelClosed?
    {
      timer, ended, reloads := None, false, {};
      for n := 0 to |notices|
        invariant forall i | 0 <= i < n :: !notices[i].ManagerDone? && !notices[i].ChannelClosed?
        invariant timer.Some? <==> exists i :: LatestEdit(notices, i, n)
        invariant timer.Some? ==> exists i :: LatestEdit(notices, i, n) && timer.value == notices[i].at + DEBOUNCE
        invariant forall k :: k in reloads <==> 0 <= k < n && notices[k].TimerDue? && exists i :: LatestEdit(notices, i, k)
      {
        NextEdit(notices, n, n + 1);
        match notices[n]
        case ManagerDone =>
          return None, true, reloads;
        case ChannelClosed =>
          return None, true, reloads;
        case FileEvent(at, aboutConfig, writeOrCreate) =>
          if aboutConfig && writeOrCreate {
            timer := Some(at + DEBOUNCE);
          }
        case TimerDue =>
          if timer.Some? {
            reloads := reloads + {n};
            timer := None;
          }
        case WatcherError =>
      }
    }
  }

  /** What one more notice does to the latest edit. */
  lemma NextEdit(notices: seq<Notice>, n: nat, m: nat)
    requires n < |notices| && m == n + 1
    ensures
      var edit := notices[n].FileEvent? && notices[n].aboutConfig && notices[n].writeOrCreate;
      && (edit ==> LatestEdit(notices, n, m))
      && (!edit && !notices[n].TimerDue? ==> forall i :: LatestEdit(notices, i, n) ==> LatestEdit(notices, i, m))
      && ((exists i :: LatestEdit(notices, i, m)) <==>
            (edit || (!notices[n].TimerDue? && exists i :: LatestEdit(notices, i, n))))
  {
    var edit := notices[n].FileEvent? && notices[n].aboutConfig && notices[n].writeOrCreate;
    if edit {
      assert LatestEdit(notices, n, m);
    }
    forall i | !edit && !notices[n].TimerDue? && LatestEdit(notices, i, n)
      ensures LatestEdit(notices, i, m)
    {}
    forall i | LatestEdit(notices, i, m)
      ensures edit || (!notices[n].TimerDue? && LatestEdit(notices, i, n))
    {
      assert i < n ==> !notices[n].TimerDue? && !edit;
    }
  }

  /** Run without interruption, a reload is its three steps in the machine. */
  lemma ReloadIsThreeSteps(s: State, i: nat, config: seq<Route>)
    requires PcIs(s, i, Loading)
    ensures
      var end := After(s, [LoadSucceeds(i, config), Store(i), TrySend(i)]);
      end.Some? && end.value.signal && end.value.stores == s.stores + [config]
  {
    var es := [LoadSucceeds(i, config), Store(i), TrySend(i)];
    assert es[..0] == [] && es[..1][..0] == [] && es[..2][..1] == es[..1] && es[..3] == es && es[..3][..2] == es[..2];
    var s1 := Next(s, es[0]);
    assert After(s, es[..1]) == Some(s1);
    var s2 := Next(s1, es[1]);
    assert After(s, es[..2]) == Some(s2);
  }
}
