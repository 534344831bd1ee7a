/**
 * Window matching: `FindWindow` and the per-window callback it hands to
 * `EnumWindows` (main.go), over an abstract snapshot of the desktop.
 *
 * The functional reference is `Matches`, a filter over the enumerated
 * windows; the imperative model (a `Collector` object standing for the
 * slice the Go callback appends to, driven by the enumeration loop) is
 * proved equal to it, and the properties of the filter are lemmas.
 */
module Windows {
  import opened Win32

  /** Size, in code units, of the buffer the callback reads a caption into. */
  const CaptionBufferSize: nat := 200

  /**
   * The caption as `syscall.UTF16ToString` decodes it: the units before
   * the first NUL, or all of them when there is none.
   */
  function UpToNul(s: seq<Uint16>): (r: seq<Uint16>)
    ensures |r| <= |s| && r == s[..|r|]
    ensures 0 !in r
    ensures |r| < |s| ==> s[|r|] == 0
  {
    if s == [] || s[0] == 0 then [] else [s[0]] + UpToNul(s[1..])
  }

  /** A NUL at `n` with no NUL before it ends the decoded text at `n`. */
  lemma UpToNulAt(s: seq<Uint16>, n: nat)
    requires n < |s| && s[n] == 0 && 0 !in s[..n]
    ensures UpToNul(s) == s[..n]
  {
  }

  function Zeros(n: nat): (z: seq<Uint16>)
    ensures |z| == n && forall i :: 0 <= i < n ==> z[i] == 0
  {
    seq(n, _ => 0)
  }

  /** The caption buffer right after `GetWindowText` wrote into a zeroed one. */
  function ReadBuffer(w: Window): (b: seq<Uint16>)
    ensures |b| == CaptionBufferSize
  {
    var n := CopiedLength(w, CaptionBufferSize);
    w.caption[..n] + Zeros(CaptionBufferSize - n)
  }

  /** The longest caption prefix a 200-unit buffer can return. */
  function Truncated(c: Caption): (t: seq<Uint16>)
    ensures |t| < CaptionBufferSize
  {
    if |c| < CaptionBufferSize then c else c[..CaptionBufferSize - 1]
  }

  /**
   * What the enumeration callback learns about a window's caption: `None`
   * when `GetWindowText` reports an error, otherwise the decoded buffer.
   * In OS terms: the read fails for an unreadable window and for an empty
   * caption, and otherwise yields the caption cut to 199 units.
   */
  function CaptionOf(w: Window): (c: Option<seq<Uint16>>)
    ensures c.None? <==> !w.readOk || w.caption == []
    ensures c.Some? ==> c.value == Truncated(w.caption)
  {
    var len := ToInt32(CopiedLength(w, CaptionBufferSize));
    if CallError(len != 0, w.lastError).Some? then None
    else
      var n := CopiedLength(w, CaptionBufferSize);
      assert ReadBuffer(w)[..n] == w.caption[..n];
      UpToNulAt(ReadBuffer(w), n);
      Some(UpToNul(ReadBuffer(w)))
  }

  /**
   * The decision the Go callback takes on a window: keep it when
   * `GetWindowText` reported no error, the decoded buffer equals `title`
   * and the window is visible.
   */
  function CallbackKeeps(w: Window, title: seq<Uint16>): (keep: bool)
    ensures keep ==> title != [] && w.visible
  {
    match CaptionOf(w)
    case None => false
    case Some(caption) => caption == title && IsWindowVisible(w)
  }

  /**
   * Which windows `FindWindow` keeps, stated on the window itself: its
   * caption is readable and non-empty, its first 199 units are the title,
   * and it is visible.
   */
  function Accepts(w: Window, title: seq<Uint16>): (ok: bool)
    ensures ok ==> 0 < |title| < CaptionBufferSize && title <= w.caption
  {
    w.readOk && w.caption != [] && Truncated(w.caption) == title && w.visible
  }

  /** The callback's decision is exactly `Accepts`. */
  lemma CallbackKeepsIff(w: Window, title: seq<Uint16>)
    ensures CallbackKeeps(w, title) <==> Accepts(w, title)
  {
  }

  /** The handles `FindWindow` returns for one enumeration, in enumeration order. */
  function Matches(ws: seq<Window>, title: seq<Uint16>): (r: seq<Handle>)
    ensures |r| <= |ws|
  {
    if ws == [] then []
    else
      var last := ws[|ws| - 1];
      Matches(ws[..|ws| - 1], title) + (if Accepts(last, title) then [last.handle] else [])
  }

  /** Enumerating two runs of windows one after the other matches each run on its own. */
  lemma {:induction false} MatchesAppend(a: seq<Window>, b: seq<Window>, title: seq<Uint16>)
    ensures Matches(a + b, title) == Matches(a, title) + Matches(b, title)
  {
    if b == [] {
      assert a + b == a;
    } else {
      var ab := a + b;
      assert ab[..|ab| - 1] == a + b[..|b| - 1];
      assert ab[|ab| - 1] == b[|b| - 1];
      MatchesAppend(a, b[..|b| - 1], title);
    }
  }

  /** A lone window contributes its handle exactly when it is accepted. */
  lemma MatchesSingle(w: Window, title: seq<Uint16>)
    ensures Matches([w], title) == if Accepts(w, title) then [w.handle] else []
  {
  }

  /**
   * A window that the callback accepts appears in the result, at the
   * position given by the number of accepted windows enumerated before it.
   */
  lemma MatchPosition(ws: seq<Window>, title: seq<Uint16>, i: nat)
    requires i < |ws| && Accepts(ws[i], title)
    ensures |Matches(ws[..i], title)| < |Matches(ws, title)|
    ensures Matches(ws, title)[|Matches(ws[..i], title)|] == ws[i].handle
  {
    assert ws == ws[..i] + [ws[i]] + ws[i + 1..];
    MatchesAppend(ws[..i] + [ws[i]], ws[i + 1..], title);
    MatchesAppend(ws[..i], [ws[i]], title);
    MatchesSingle(ws[i], title);
  }

  /** Every handle in the result comes from an accepted window, at that window's position. */
  lemma {:induction false} MatchSource(ws: seq<Window>, title: seq<Uint16>, k: nat)
    requires k < |Matches(ws, title)|
    ensures exists i :: (0 <= i < |ws| && Accepts(ws[i], title) &&
      |Matches(ws[..i], title)| == k && Matches(ws, title)[k] == ws[i].handle)
  {
    var front, last := ws[..|ws| - 1], ws[|ws| - 1];
    assert Matches(ws, title) == Matches(front, title) + (if Accepts(last, title) then [last.handle] else []);
    if k < |Matches(front, title)| {
      MatchSource(front, title, k);
      var i :| 0 <= i < |front| && Accepts(front[i], title) &&
        |Matches(front[..i], title)| == k && Matches(front, title)[k] == front[i].handle;
      assert front[..i] == ws[..i];
      assert ws[i] == front[i];
    } else {
      assert ws[..|ws| - 1] == front;
      assert Accepts(last, title) && Matches(ws, title)[k] == last.handle;
    }
  }

  /** Windows accepted earlier in the enumeration come earlier in the result. */
  lemma MatchesInOrder(ws: seq<Window>, title: seq<Uint16>, i: nat, j: nat)
    requires i < j < |ws| && Accepts(ws[i], title)
    ensures |Matches(ws[..i], title)| < |Matches(ws[..j], title)|
  {
    assert ws[..j] == ws[..i] + [ws[i]] + ws[i + 1..j];
    MatchesAppend(ws[..i] + [ws[i]], ws[i + 1..j], title);
    MatchesAppend(ws[..i], [ws[i]], title);
    MatchesSingle(ws[i], title);
  }

  /** `FindWindow`'s result holds exactly the handles of accepted windows. */
  lemma MatchesMember(ws: seq<Window>, title: seq<Uint16>, h: Handle)
    ensures h in Matches(ws, title) <==>
      exists i :: 0 <= i < |ws| && ws[i].handle == h && Accepts(ws[i], title)
  {
  }

  /**
   * A window whose caption cannot be read, or is empty, is skipped: taking
   * it out of the enumeration changes nothing for the other windows.
   */
  lemma SkipUnreadable(before: seq<Window>, w: Window, after: seq<Window>, title: seq<Uint16>)
    requires !w.readOk || w.caption == []
    ensures Matches(before + [w] + after, title) == Matches(before + after, title)
  {
    MatchesAppend(before + [w], after, title);
    MatchesAppend(before, [w], title);
    MatchesSingle(w, title);
    MatchesAppend(before, after, title);
  }

  /** An empty caption is a read error, even when the OS error code is 0. */
  lemma EmptyCaptionIsError(w: Window)
    requires w.caption == []
    ensures CallError(ToInt32(CopiedLength(w, CaptionBufferSize)) != 0, w.lastError) ==
      Some(if w.lastError == 0 then Einval else Errno(w.lastError))
    ensures CaptionOf(w) == None
  {
  }

  /** No window ever matches the empty title. */
  lemma {:induction false} EmptyTitleMatchesNothing(ws: seq<Window>)
    ensures Matches(ws, []) == []
  {
    if ws != [] {
      EmptyTitleMatchesNothing(ws[..|ws| - 1]);
    }
  }

  /** A title the 200-unit buffer cannot hold with its NUL never matches. */
  lemma {:induction false} LongTitleMatchesNothing(ws: seq<Window>, title: seq<Uint16>)
    requires CaptionBufferSize <= |title|
    ensures Matches(ws, title) == []
  {
    if ws != [] {
      LongTitleMatchesNothing(ws[..|ws| - 1], title);
    }
  }

  /**
   * The flip side of the fixed buffer: a visible window whose caption is
   * 200 units or longer is matched by its first 199 units alone.
   */
  lemma LongCaptionMatchesItsPrefix(w: Window)
    requires w.readOk && w.visible && CaptionBufferSize <= |w.caption|
    ensures Accepts(w, w.caption[..CaptionBufferSize - 1])
    ensures !Accepts(w, w.caption)
  {
  }

  /**
   * The slice the Go callback closes over: each call of `Callback` is one
   * invocation of the per-window closure, appending to `hwnds`.
   */
  class Collector {
    const title: seq<Uint16>
    var hwnds: seq<Handle>

    constructor (title: seq<Uint16>)
      ensures this.title == title && hwnds == []
    {
      this.title := title;
      hwnds := [];
    }

    /** The enumeration callback: always asks to continue (returns 1). */
    method Callback(w: Window) returns (cont: nat)
      modifies this
      ensures cont == 1
      ensures hwnds == old(hwnds) + if Accepts(w, title) then [w.handle] else []
    {
      var b := new Uint16[CaptionBufferSize](_ => 0);
      var len, err := GetWindowText(w, b, b.Length);
      if err.Some? {
        // the read error is ignored and enumeration continues
        return 1;
      }
      assert b[..] == ReadBuffer(w) by {
        forall i | 0 <= i < CaptionBufferSize
          ensures b[i] == ReadBuffer(w)[i]
        {
          if i < len {
            assert ReadBuffer(w)[i] == w.caption[..len][i];
          }
        }
      }
      if UpToNul(b[..]) == title {
        if IsWindowVisible(w) {
          hwnds := hwnds + [w.handle];
        }
      }
      CallbackKeepsIff(w, title);
      return 1;
    }
  }

  /**
   * The Go `EnumWindows` wrapper together with the OS enumeration it
   * triggers: the callback runs on each window in order until it returns
   * 0, then the raw result becomes an error by the shared convention.
   */
  method EnumWindows(desktop: Desktop, cb: Collector) returns (err: Option<Error>)
    modifies cb
    ensures cb.hwnds == old(cb.hwnds) + Matches(desktop.windows, cb.title)
    ensures err == CallError(desktop.r1 != 0, desktop.e1)
  {
    var ws := desktop.windows;
    var i, cont := 0, 1;
    while i < |ws| && cont != 0
      invariant 0 <= i <= |ws| && cont == 1
      invariant cb.hwnds == old(cb.hwnds) + Matches(ws[..i], cb.title)
    {
      cont := cb.Callback(ws[i]);
      assert ws[..i + 1][..i] == ws[..i];
      i := i + 1;
    }
    assert ws[..i] == ws;
    err := CallError(desktop.r1 != 0, desktop.e1);
  }

  /**
   * `FindWindow`: the visible windows whose caption reads back as `title`,
   * in enumeration order. The enumeration's own error is discarded, so the
   * returned error is always nil.
   */
  method FindWindow(title: seq<Uint16>, desktop: Desktop) returns (hwnds: seq<Handle>, err: Option<Error>)
    ensures hwnds == Matches(desktop.windows, title)
    ensures err == None
  {
    var cb := new Collector(title);
    var ignored := EnumWindows(desktop, cb);
    hwnds, err := cb.hwnds, None;
  }
}
