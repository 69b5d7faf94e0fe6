/**
 * The popup watchdog that runs while a blocking automation call is in flight.
 * Each poll asks the window manager for the last active popup of the main
 * window and sends it a WM_SYSCOMMAND / SC_CLOSE message unless the handle it
 * got back is the main window itself. The polls are given as the finite trace
 * of handles the query returned, one per poll, while the worker was alive.
 */
module PopupWatchdog {
  /** A window handle; 0 is the null handle. */
  type Handle = int

  const WmSyscommand: int := 0x0112
  const ScClose: int := 0xF060

  /** A SendMessage(hWnd, msg, wParam, lParam) call. */
  datatype WindowMessage = SendMessage(hWnd: Handle, msg: int, wParam: int, lParam: Handle)

  predicate IsCloseCommand(m: WindowMessage) {
    m.msg == WmSyscommand && m.wParam == ScClose && m.lParam == 0
  }

  function CloseCommand(hWnd: Handle): WindowMessage {
    SendMessage(hWnd, WmSyscommand, ScClose, 0)
  }

  /** The messages one poll sends: a close command, unless the popup is the main window. */
  function PollMessages(mainWindow: Handle, popup: Handle): (r: seq<WindowMessage>)
    ensures |r| <= 1
    ensures forall m :: m in r ==> IsCloseCommand(m) && m.hWnd == popup && m.hWnd != mainWindow
    ensures popup != mainWindow <==> CloseCommand(popup) in r
  {
    if popup != mainWindow then [CloseCommand(popup)] else []
  }

  /** The messages sent over a whole trace of polls, in poll order. */
  function SentMessages(mainWindow: Handle, observed: seq<Handle>): seq<WindowMessage> {
    if observed == [] then []
    else
      var n := |observed| - 1;
      SentMessages(mainWindow, observed[..n]) + PollMessages(mainWindow, observed[n])
  }

  /** The poll loop: one query result per iteration, while the worker is alive. */
  method ShutDownPopups(mainWindow: Handle, observed: seq<Handle>) returns (sent: seq<WindowMessage>)
    ensures sent == SentMessages(mainWindow, observed)
    ensures forall m :: m in sent ==> IsCloseCommand(m) && m.hWnd != mainWindow && m.hWnd in observed
    ensures forall i :: 0 <= i < |observed| && observed[i] != mainWindow ==> CloseCommand(observed[i]) in sent
  {
    sent := [];
    var i := 0;
    while i < |observed|
      invariant 0 <= i <= |observed|
      invariant sent == SentMessages(mainWindow, observed[..i])
      invariant forall m :: m in sent ==> IsCloseCommand(m) && m.hWnd != mainWindow && m.hWnd in observed[..i]
      invariant forall j :: 0 <= j < i && observed[j] != mainWindow ==> CloseCommand(observed[j]) in sent
    {
      var popupHandle := observed[i];
      if popupHandle != mainWindow {
        sent := sent + [CloseCommand(popupHandle)];
      }
      assert observed[..i + 1][..i] == observed[..i];
      i := i + 1;
    }
    assert observed[..i] == observed;
  }

  /** No close command ever goes to the main window, and every one goes to an observed popup. */
  lemma {:induction false} NeverClosesMainWindow(mainWindow: Handle, observed: seq<Handle>)
    ensures forall m :: m in SentMessages(mainWindow, observed) ==>
              IsCloseCommand(m) && m.hWnd != mainWindow && m.hWnd in observed
  {
    if observed != [] {
      var n := |observed| - 1;
      NeverClosesMainWindow(mainWindow, observed[..n]);
      forall h | h in observed[..n] ensures h in observed { }
    }
  }

  /** Every poll that saw a handle other than the main window sent it a close command. */
  lemma {:induction false} EveryPopupIsClosed(mainWindow: Handle, observed: seq<Handle>, i: nat)
    requires i < |observed| && observed[i] != mainWindow
    ensures CloseCommand(observed[i]) in SentMessages(mainWindow, observed)
  {
    var n := |observed| - 1;
    if i < n {
      assert observed[..n][i] == observed[i];
      EveryPopupIsClosed(mainWindow, observed[..n], i);
    }
  }

  /** Polls are independent: the messages of two traces in a row are those of each trace. */
  lemma {:induction false} SentMessagesConcat(mainWindow: Handle, a: seq<Handle>, b: seq<Handle>)
    ensures SentMessages(mainWindow, a + b) == SentMessages(mainWindow, a) + SentMessages(mainWindow, b)
    decreases |b|
  {
    if b == [] {
      assert a + b == a;
    } else {
      var n := |b| - 1;
      SentMessagesConcat(mainWindow, a, b[..n]);
      SplitLast(a, b);
      SentMessagesSnoc(mainWindow, a + b[..n], b[n]);
    }
  }

  lemma SplitLast(a: seq<Handle>, b: seq<Handle>)
    requires b != []
    ensures a + b == (a + b[..|b| - 1]) + [b[|b| - 1]]
  {
    assert b == b[..|b| - 1] + [b[|b| - 1]];
  }

  lemma SentMessagesSnoc(mainWindow: Handle, trace: seq<Handle>, h: Handle)
    ensures SentMessages(mainWindow, trace + [h]) == SentMessages(mainWindow, trace) + PollMessages(mainWindow, h)
  {
    assert (trace + [h])[..|trace|] == trace;
  }

  /** Nothing is sent exactly when every poll returned the main window. */
  lemma {:induction false} NothingSentIffNoPopup(mainWindow: Handle, observed: seq<Handle>)
    ensures SentMessages(mainWindow, observed) == [] <==>
            forall i :: 0 <= i < |observed| ==> observed[i] == mainWindow
  {
    if observed != [] {
      var n := |observed| - 1;
      NothingSentIffNoPopup(mainWindow, observed[..n]);
      if SentMessages(mainWindow, observed) == [] {
        forall i | 0 <= i < |observed| ensures observed[i] == mainWindow {
          if i < n { assert observed[..n][i] == observed[i]; }
        }
      }
    }
  }

  /** There is no null check: a null handle from the query is sent a close command too. */
  lemma NullHandleIsSentClose(mainWindow: Handle, observed: seq<Handle>, i: nat)
    requires mainWindow != 0 && i < |observed| && observed[i] == 0
    ensures CloseCommand(0) in SentMessages(mainWindow, observed)
  {
    EveryPopupIsClosed(mainWindow, observed, i);
  }
}
