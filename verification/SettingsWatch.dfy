// RedXe/SettingsWatcher.cpp and Application::OnSettingsChanged: a watcher thread tells the UI thread that the settings
// file may have changed, one message at a time, and the UI thread may put the reload off.
module SettingsNotices {

  /** The flag the two threads share, the UI thread's queued messages, and what the UI thread knows of its window. */
  datatype Notices = Notices(pending: bool, queue: nat, deferred: bool, inSizeMove: bool, minimized: bool)

  function Initial(): (r: Notices) { Notices(false, 0, false, false, false) }

  /** The watcher's exchange: it goes on to post exactly when no notice was pending. */
  function Exchanged(n: Notices): (r: Notices) { n.(pending := true) }

  /** Its PostMessage; a failed one takes the flag back. */
  function Sent(n: Notices, posted: bool): (r: Notices) {
    if posted then n.(queue := n.queue + 1) else n.(pending := false)
  }

  function Acknowledged(n: Notices): (r: Notices) { n.(pending := false) }

  /** The UI thread takes a message: in a size loop it defers the reload, else it acknowledges and goes on to read. */
  function Taken(n: Notices): (r: Notices)
    requires n.queue > 0
  {
    var rest := n.(queue := n.queue - 1);
    if n.inSizeMove then rest.(deferred := true) else Acknowledged(rest)
  }

  /** ReplayDeferredSettingsReload. */
  function Replayed(n: Notices, posted: bool): (r: Notices) {
    if !n.deferred || n.inSizeMove || n.minimized || !posted then n
    else n.(queue := n.queue + 1, deferred := false)
  }

  function SizeLoopEnded(n: Notices, posted: bool): (r: Notices) { Replayed(n.(inSizeMove := false), posted) }

  function Sized(n: Notices, minimized: bool, posted: bool): (r: Notices) {
    var sized := n.(minimized := minimized);
    if minimized then sized else Replayed(sized, posted)
  }

  class SettingsNotifier {
    var notificationPending: bool
    var queue: nat
    var settingsReloadDeferred: bool
    var inSizeMove: bool
    var minimized: bool

    function Value(): (r: Notices)
      reads this
    {
      Notices(notificationPending, queue, settingsReloadDeferred, inSizeMove, minimized)
    }

    constructor ()
      ensures Value() == Initial()
    {
      notificationPending, queue, settingsReloadDeferred, inSizeMove, minimized := false, 0, false, false, false;
    }

    /** The first half of PostSettingsChanged. */
    method Exchange() returns (wasPending: bool)
      modifies this
      ensures wasPending == old(notificationPending) && Value() == Exchanged(old(Value()))
    {
      wasPending := notificationPending;
      notificationPending := true;
    }

    /** The second half, after an exchange that found no notice pending. */
    method Send(posted: bool)
      modifies this
      ensures Value() == Sent(old(Value()), posted)
    {
      if posted {
        queue := queue + 1;
      } else {
        notificationPending := false;
      }
    }

    method AcknowledgeNotification()
      modifies this
      ensures Value() == Acknowledged(old(Value()))
    {
      notificationPending := false;
    }

    /** OnSettingsChanged up to the read of the file. */
    method OnSettingsChanged() returns (reading: bool)
      requires queue > 0
      modifies this
      ensures Value() == Taken(old(Value())) && reading == !inSizeMove
    {
      queue := queue - 1;
      if inSizeMove {
        settingsReloadDeferred := true;
        return false;
      }
      AcknowledgeNotification();
      reading := true;
    }

    /** A candidate that rebuilds the page of a minimized window waits for the window to be restored. */
    method DeferCandidate()
      modifies this
      ensures Value() == old(Value()).(deferred := true)
    {
      settingsReloadDeferred := true;
    }

    method ReplayDeferredReload(posted: bool)
      modifies this
      ensures Value() == Replayed(old(Value()), posted)
    {
      if !settingsReloadDeferred || inSizeMove || minimized {
        return;
      }
      if posted {
        queue := queue + 1;
        settingsReloadDeferred := false;
      }
    }

    method OnExitSizeMove(posted: bool)
      modifies this
      ensures Value() == SizeLoopEnded(old(Value()), posted)
    {
      inSizeMove := false;
      ReplayDeferredReload(posted);
    }

    method OnSize(isMinimized: bool, posted: bool)
      modifies this
      ensures Value() == Sized(old(Value()), isMinimized, posted)
    {
      minimized := isMinimized;
      if !isMinimized {
        ReplayDeferredReload(posted);
      }
    }
  }
}
