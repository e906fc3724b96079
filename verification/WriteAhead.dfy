/** The write-ahead argument as values: which recovered data an image holds, durably or not, and which map
    transitions were staged for it. */
module WriteAhead {
  import opened Prelude
  import opened Extents
  import opened Applying
  import opened Replaying
  import opened TornTails
  import opened Media
  import opened RecoveryMap

  /** `calls` and `recovered` are the data and the transitions handed to PersistRecovered, in order, and `marks` the
      transitions that came without data; `sources` gives for each transition of the session the call it came from;
      the first `synced` calls precede the last sync of the image. */
  datatype Ledger = Ledger(calls: seq<Write>, recovered: seq<Extent>, marks: set<Extent>, sources: seq<Option<nat>>, synced: nat)

  function Called(l: Ledger, call: Write, e: Extent): Ledger {
    l.(calls := l.calls + [call], recovered := l.recovered + [e])
  }

  function Marked(l: Ledger, e: Extent): Ledger {
    l.(marks := l.marks + {e})
  }

  /** Every transition is that of its call, or came without data. */
  ghost predicate Accounted(es: seq<Extent>, sources: seq<Option<nat>>, l: Ledger)
    requires |sources| == |es|
  {
    forall i :: 0 <= i < |es| ==>
      match sources[i]
      case Some(c) => c < |l.recovered| && l.recovered[c] == es[i]
      case None => es[i] in l.marks
  }

  ghost predicate Later(l: Ledger, l': Ledger) {
    l.calls <= l'.calls && l.recovered <= l'.recovered && l.marks <= l'.marks
  }

  /** The value of byte b comes from call c or a later one. */
  ghost predicate From(calls: seq<Write>, c: nat, b: nat, v: uint8) {
    exists j :: c <= j < |calls| && calls[j].Covers(b) && calls[j].data[b - calls[j].offset] == v
  }

  /** The contents hold the data of call c, or of later calls that wrote over it. */
  ghost predicate Held(contents: Contents, calls: seq<Write>, c: nat)
    requires c < |calls|
  {
    forall b: nat :: calls[c].Covers(b) ==> b in contents && From(calls, c, b, contents[b])
  }

  /** The write is part of call c or later ones. */
  ghost predicate Late(w: Write, calls: seq<Write>, c: nat) {
    forall b: nat :: w.Covers(b) ==> From(calls, c, b, w.data[b - w.offset])
  }

  /** Whatever a crash makes of the image, it holds the data of call c, or of later calls over it. */
  ghost predicate Backed(image: ImageFile, calls: seq<Write>, c: nat)
    requires c < |calls|
  {
    Held(image.synced, calls, c) && forall k :: 0 <= k < |image.unsynced| ==> Late(image.unsynced[k], calls, c)
  }

  lemma BackedSurvivesCrash(image: ImageFile, calls: seq<Write>, c: nat, crashed: Contents)
    requires c < |calls| && Backed(image, calls, c) && image.MayCrashTo(crashed)
    ensures Held(crashed, calls, c)
  {
    forall b: nat | calls[c].Covers(b) ensures b in crashed && From(calls, c, b, crashed[b]) {
      if !(b in image.synced && crashed[b] == image.synced[b]) {
        var i :| 0 <= i < |image.unsynced| && image.unsynced[i].Covers(b) && crashed[b] == image.unsynced[i].data[b - image.unsynced[i].offset];
        assert Late(image.unsynced[i], calls, c);
      }
    }
  }

  ghost predicate SourceHeld(image: ImageFile, l: Ledger, source: Option<nat>) {
    source.Some? ==>
      && source.value < |l.calls|
      && Held(image.Working(), l.calls, source.value)
      && (source.value < l.synced ==> Held(image.synced, l.calls, source.value))
  }

  /** Between operations: journaled transitions have their data synced, staged ones have it written, and nothing
      unsynced is older than the last sync. */
  ghost predicate InOrder(image: ImageFile, s: Session, l: Ledger, pending: nat) {
    && |l.sources| == |s.All()| && l.synced <= |l.calls| && |l.recovered| == |l.calls|
    && Accounted(s.All(), l.sources, l)
    && (forall i :: 0 <= i < |l.sources| ==> SourceHeld(image, l, l.sources[i]))
    && (forall i :: 0 <= i < |s.written| && l.sources[i].Some? ==> l.sources[i].value < l.synced)
    && (0 < l.synced ==> forall k :: 0 <= k < |image.unsynced| ==> Late(image.unsynced[k], l.calls, l.synced))
    && (pending == 0 ==> forall i :: |s.written| <= i < |l.sources| ==> l.sources[i].None?)
  }

  /** A state of the files from which recovery is safe: the map holds a prefix of a journal whose every record that
      is wholly in the file and stands for recovered data has that data in the image, crash or not. */
  ghost predicate Safe(d: Disk, start: bytes, first: nat, es: seq<Extent>, sources: seq<Option<nat>>, l: Ledger) {
    && Journalable(first, es) && |sources| == |es| && Accounted(es, sources, l)
    && start <= d.map_.synced && d.map_.Body() <= start + Journal(first, es)
    && forall i :: 0 <= i < |es| && sources[i].Some? && |start| + 57 * (i + 1) <= |d.map_.Body()| ==>
         sources[i].value < |l.calls| && Backed(d.image, l.calls, sources[i].value)
  }

  ghost predicate CrashSafe(d: Disk, start: bytes, first: nat, l: Ledger) {
    exists es: seq<Extent>, sources: seq<Option<nat>> :: Safe(d, start, first, es, sources, l)
  }

  ghost predicate AllCrashSafe(h: seq<Disk>, start: bytes, first: nat, l: Ledger) {
    forall i :: 0 <= i < |h| ==> CrashSafe(h[i], start, first, l)
  }

  // ----- later calls take nothing away

  lemma FromGrows(calls: seq<Write>, more: seq<Write>, c: nat, b: nat, v: uint8)
    requires From(calls, c, b, v)
    ensures From(calls + more, c, b, v)
  {
    var j :| c <= j < |calls| && calls[j].Covers(b) && calls[j].data[b - calls[j].offset] == v;
    assert (calls + more)[j] == calls[j];
  }

  lemma HeldGrows(contents: Contents, calls: seq<Write>, more: seq<Write>, c: nat)
    requires c < |calls| && Held(contents, calls, c)
    ensures Held(contents, calls + more, c)
  {
    var all := calls + more;
    assert all[c] == calls[c];
    forall b: nat | all[c].Covers(b) ensures b in contents && From(all, c, b, contents[b]) {
      FromGrows(calls, more, c, b, contents[b]);
    }
  }

  lemma LateGrows(w: Write, calls: seq<Write>, more: seq<Write>, c: nat)
    requires Late(w, calls, c)
    ensures Late(w, calls + more, c)
  {
    forall b: nat | w.Covers(b) ensures From(calls + more, c, b, w.data[b - w.offset]) {
      FromGrows(calls, more, c, b, w.data[b - w.offset]);
    }
  }

  lemma BackedGrows(image: ImageFile, calls: seq<Write>, more: seq<Write>, c: nat)
    requires c < |calls| && Backed(image, calls, c)
    ensures Backed(image, calls + more, c)
  {
    HeldGrows(image.synced, calls, more, c);
    forall k | 0 <= k < |image.unsynced| ensures Late(image.unsynced[k], calls + more, c) {
      LateGrows(image.unsynced[k], calls, more, c);
    }
  }

  lemma SafeGrows(d: Disk, start: bytes, first: nat, l: Ledger, l': Ledger)
    requires CrashSafe(d, start, first, l) && Later(l, l')
    ensures CrashSafe(d, start, first, l')
  {
    hide Backed, Journal, Accounted;
    var es: seq<Extent>, sources: seq<Option<nat>> :| Safe(d, start, first, es, sources, l);
    var more := l'.calls[|l.calls|..];
    assert l'.calls == l.calls + more;
    AccountedLater(es, sources, l, l');
    forall i | 0 <= i < |es| && sources[i].Some? && |start| + 57 * (i + 1) <= |d.map_.Body()|
      ensures sources[i].value < |l'.calls| && Backed(d.image, l'.calls, sources[i].value)
    {
      BackedGrows(d.image, l.calls, more, sources[i].value);
    }
    assert Safe(d, start, first, es, sources, l');
  }

  lemma AccountedLater(es: seq<Extent>, sources: seq<Option<nat>>, l: Ledger, l': Ledger)
    requires |sources| == |es| && Accounted(es, sources, l) && Later(l, l')
    ensures Accounted(es, sources, l')
  {
  }

  lemma AllSafeGrows(h: seq<Disk>, start: bytes, first: nat, l: Ledger, l': Ledger)
    requires AllCrashSafe(h, start, first, l) && Later(l, l')
    ensures AllCrashSafe(h, start, first, l')
  {
    hide CrashSafe;
    forall i | 0 <= i < |h| ensures CrashSafe(h[i], start, first, l') {
      SafeGrows(h[i], start, first, l, l');
    }
  }

  // ----- the steps of the protocol

  lemma CallBegins(image: ImageFile, s: Session, l: Ledger, pending: nat, call: Write, e: Extent)
    requires InOrder(image, s, l, pending)
    ensures InOrder(image, s, Called(l, call, e), pending) && Later(l, Called(l, call, e))
  {
    hide Held, Late, Accounted;
    var l' := Called(l, call, e);
    AccountedLater(s.All(), l.sources, l, l');
    forall i | 0 <= i < |l.sources| ensures SourceHeld(image, l', l.sources[i]) {
      assert SourceHeld(image, l, l.sources[i]);
      if l.sources[i].Some? {
        HeldGrows(image.Working(), l.calls, [call], l.sources[i].value);
        if l.sources[i].value < l.synced {
          HeldGrows(image.synced, l.calls, [call], l.sources[i].value);
        }
      }
    }
    forall k | 0 <= k < |image.unsynced| && 0 < l.synced ensures Late(image.unsynced[k], l'.calls, l.synced) {
      LateGrows(image.unsynced[k], l.calls, [call], l.synced);
    }
  }

  lemma MarkBegins(image: ImageFile, s: Session, l: Ledger, pending: nat, e: Extent)
    requires InOrder(image, s, l, pending)
    ensures InOrder(image, s, Marked(l, e), pending) && Later(l, Marked(l, e))
  {
    hide Held, Late, Accounted;
    AccountedLater(s.All(), l.sources, l, Marked(l, e));
    forall i | 0 <= i < |l.sources| ensures SourceHeld(image, Marked(l, e), l.sources[i]) {
      assert SourceHeld(image, l, l.sources[i]);
    }
  }

  /** w carries bytes of the call at the same places. */
  ghost predicate PartOf(w: Write, call: Write) {
    forall b: nat :: w.Covers(b) ==> call.Covers(b) && call.data[b - call.offset] == w.data[b - w.offset]
  }

  lemma WorkingAfterWrite(image: ImageFile, w: Write)
    ensures image.(unsynced := image.unsynced + [w]).Working() == Written(image.Working(), w)
  {
    assert (image.unsynced + [w])[..|image.unsynced|] == image.unsynced;
  }

  lemma WorkingAfterSync(image: ImageFile)
    ensures ImageFile(image.Working(), []).Working() == image.Working()
  {
  }

  lemma HeldUnderLater(contents: Contents, calls: seq<Write>, c: nat, w: Write, last: nat)
    requires c <= last < |calls| && Held(contents, calls, c) && PartOf(w, calls[last])
    ensures Held(Written(contents, w), calls, c)
  {
    var after := Written(contents, w);
    forall b: nat | calls[c].Covers(b) ensures b in after && From(calls, c, b, after[b]) {
      if w.Covers(b) {
        assert calls[last].Covers(b) && calls[last].data[b - calls[last].offset] == after[b];
      } else {
        assert after[b] == contents[b];
      }
    }
  }

  /** A piece of the current call reaches the image. */
  lemma PieceWritten(image: ImageFile, s: Session, l: Ledger, pending: nat, w: Write)
    requires InOrder(image, s, l, pending) && l.synced < |l.calls| && PartOf(w, l.calls[|l.calls|-1])
    ensures InOrder(image.(unsynced := image.unsynced + [w]), s, l, pending)
  {
    hide Held, Late, From, PartOf;
    var image' := image.(unsynced := image.unsynced + [w]);
    var last := |l.calls| - 1;
    WorkingAfterWrite(image, w);
    forall i | 0 <= i < |l.sources| ensures SourceHeld(image', l, l.sources[i]) {
      assert SourceHeld(image, l, l.sources[i]);
      if l.sources[i].Some? {
        HeldUnderLater(image.Working(), l.calls, l.sources[i].value, w, last);
      }
    }
    PartIsLate(w, l.calls, l.synced, last);
    forall k | 0 <= k < |image'.unsynced| && 0 < l.synced ensures Late(image'.unsynced[k], l.calls, l.synced) {
      if k < |image.unsynced| {
        assert image'.unsynced[k] == image.unsynced[k];
      }
    }
  }

  lemma PartIsLate(w: Write, calls: seq<Write>, c: nat, last: nat)
    requires c <= last < |calls| && PartOf(w, calls[last])
    ensures Late(w, calls, c)
  {
  }

  lemma ImageSynced(image: ImageFile, s: Session, l: Ledger, pending: nat)
    requires InOrder(image, s, l, pending)
    ensures InOrder(ImageFile(image.Working(), []), s, l.(synced := |l.calls|), pending)
  {
    hide Held, Late;
    var image', l' := ImageFile(image.Working(), []), l.(synced := |l.calls|);
    WorkingAfterSync(image);
    forall i | 0 <= i < |l.sources| ensures SourceHeld(image', l', l.sources[i]) {
      assert SourceHeld(image, l, l.sources[i]);
    }
  }

  /** The transition of a call whose data is wholly in the image is staged. */
  lemma CallStaged(image: ImageFile, s: Session, l: Ledger, pending: nat, e: Extent, extents: seq<Extent>, record: bytes, pending': nat, last: nat)
    requires InOrder(image, s, l, pending) && l.synced <= last < |l.calls| && 0 < pending'
    requires Held(image.Working(), l.calls, last) && l.recovered[last] == e
    ensures InOrder(image, Staged(s, e, extents, record), l.(sources := l.sources + [Some(last)]), pending')
  {
    hide Held, Late;
    var l' := l.(sources := l.sources + [Some(last)]);
    Associative(s.written, s.staged, [e]);
    forall i | 0 <= i < |l'.sources| ensures SourceHeld(image, l', l'.sources[i]) {
      if i < |l.sources| {
        assert SourceHeld(image, l, l.sources[i]);
      }
    }
  }

  /** Journaling the staged transitions, allowed when all their data is synced. */
  lemma StagedJournaled(image: ImageFile, s: Session, l: Ledger, pending: nat)
    requires InOrder(image, s, l, pending) && (pending > 0 ==> l.synced == |l.calls|)
    ensures InOrder(image, Flushed(s), l, 0)
  {
    hide Held, Late;
    assert s.All() + [] == s.All();
    forall i | 0 <= i < |s.All()| && l.sources[i].Some? ensures l.sources[i].value < l.synced {
      assert SourceHeld(image, l, l.sources[i]);
    }
  }

  lemma MarkJournaled(image: ImageFile, s: Session, l: Ledger, e: Extent, extents: seq<Extent>)
    requires InOrder(image, s, l, 0) && s.staged == [] && e in l.marks
    ensures InOrder(image, Appended(s, e, extents), l.(sources := l.sources + [None]), 0)
  {
    hide Held, Late;
    var l' := l.(sources := l.sources + [None]);
    assert s.All() == s.written;
    assert Appended(s, e, extents).All() == s.written + [e];
    forall i | 0 <= i < |l'.sources| ensures SourceHeld(image, l', l'.sources[i]) {
      if i < |l.sources| {
        assert SourceHeld(image, l, l.sources[i]);
      }
    }
  }

  // ----- the states passed through are safe

  lemma SourceBacked(image: ImageFile, s: Session, l: Ledger, pending: nat, i: nat)
    requires InOrder(image, s, l, pending) && i < |l.sources| && l.sources[i].Some? && l.sources[i].value < l.synced
    ensures Backed(image, l.calls, l.sources[i].value)
  {
    hide Held, From;
    assert SourceHeld(image, l, l.sources[i]);
    forall k | 0 <= k < |image.unsynced| ensures Late(image.unsynced[k], l.calls, l.sources[i].value) {
      LateSinceEarlier(image.unsynced[k], l.calls, l.synced, l.sources[i].value);
    }
  }

  lemma LateSinceEarlier(w: Write, calls: seq<Write>, c: nat, earlier: nat)
    requires Late(w, calls, c) && earlier <= c
    ensures Late(w, calls, earlier)
  {
    forall b: nat | w.Covers(b) ensures From(calls, earlier, b, w.data[b - w.offset]) {
      assert From(calls, c, b, w.data[b - w.offset]);
    }
  }

  /** With the map at the session's written journal, any state of the image met on the way is safe. */
  lemma RestingIsSafe(d: Disk, start: bytes, s: Session, l: Ledger, pending: nat)
    requires InOrder(d.image, s, l, pending) && Journalable(s.First(), s.written)
    requires d.map_.unsynced == [] && d.map_.synced == start + Journal(s.First(), s.written)
    ensures CrashSafe(d, start, s.First(), l)
  {
    hide Backed, Journal;
    var sources := l.sources[..|s.written|];
    assert d.map_.Body() == d.map_.synced;
    forall i | 0 <= i < |s.written| && sources[i].Some?
      ensures sources[i].value < |l.calls| && Backed(d.image, l.calls, sources[i].value)
    {
      assert sources[i] == l.sources[i];
      SourceBacked(d.image, s, l, pending, i);
    }
    assert Safe(d, start, s.First(), s.written, sources, l);
  }

  /** While the journal of the staged transitions, and perhaps of one more without data, is being appended, every
      state of the files is safe, provided the staged data is synced. */
  lemma GrowingIsSafe(d: Disk, from: Disk, start: bytes, s: Session, l: Ledger, pending: nat, extra: seq<Extent>, data: bytes)
    requires InOrder(from.image, s, l, pending) && (pending > 0 ==> l.synced == |l.calls|)
    requires from.map_.unsynced == [] && Journalable(s.First(), s.written) && from.map_.synced == start + Journal(s.First(), s.written)
    requires Journalable(s.First(), s.All() + extra)
    requires from.map_.Body() + data == start + Journal(s.First(), s.All() + extra)
    requires Grows(d, from, data) && forall e :: e in extra ==> e in l.marks
    ensures CrashSafe(d, start, s.First(), l)
  {
    hide Backed, Journal;
    var es := s.All() + extra;
    var sources := l.sources + seq(|extra|, _ => None);
    assert start <= from.map_.synced;
    forall i | 0 <= i < |es| && sources[i].Some?
      ensures sources[i].value < |l.calls| && Backed(d.image, l.calls, sources[i].value)
    {
      assert i < |l.sources| && sources[i] == l.sources[i];
      assert SourceHeld(from.image, l, l.sources[i]);
      SourceBacked(from.image, s, l, pending, i);
    }
    assert Safe(d, start, s.First(), es, sources, l);
  }

  lemma RecordedIsSafe(h0: seq<Disk>, h1: seq<Disk>, from: Disk, start: bytes, s: Session, l: Ledger, pending: nat, extra: seq<Extent>, data: bytes)
    requires AllCrashSafe(h0, start, s.First(), l) && Recorded(h0, h1, from, data)
    requires InOrder(from.image, s, l, pending) && (pending > 0 ==> l.synced == |l.calls|)
    requires from.map_.unsynced == [] && Journalable(s.First(), s.written) && from.map_.synced == start + Journal(s.First(), s.written)
    requires Journalable(s.First(), s.All() + extra)
    requires from.map_.Body() + data == start + Journal(s.First(), s.All() + extra)
    requires forall e :: e in extra ==> e in l.marks
    ensures AllCrashSafe(h1, start, s.First(), l)
  {
    hide Grows, InOrder, CrashSafe, Journal, Journalable;
    forall i | 0 <= i < |h1| ensures CrashSafe(h1[i], start, s.First(), l) {
      if i < |h0| {
        assert h1[i] == h0[i];
      } else {
        GrowingIsSafe(h1[i], from, start, s, l, pending, extra, data);
      }
    }
  }
}
