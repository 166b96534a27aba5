/**
 * Readiness bit-sets of the event loop (src/iopoll.rs, `EventSet`,
 * `EventSetBuilder` and `Display for EventSet`).
 *
 * The source keeps the `events`/`revents` word of a `pollfd` as an `i16`;
 * here it is the same 16-bit pattern as a `bv16`.
 */
module EventSets {

  // The readiness conditions of poll(2) that the program names, with the
  // values the Linux C library gives them.
  const POLLIN: bv16 := 0x001
  const POLLPRI: bv16 := 0x002
  const POLLOUT: bv16 := 0x004
  const POLLERR: bv16 := 0x008
  const POLLHUP: bv16 := 0x010
  const POLLNVAL: bv16 := 0x020

  /** Every bit that one of the six named conditions occupies. */
  const KNOWN_BITS: bv16 := 0x03F

  /** The six named conditions, as an enumeration. */
  datatype Flag = PollIn | PollPri | PollOut | PollErr | PollHup | PollNval

  function Bit(f: Flag): bv16 {
    match f
    case PollIn => POLLIN
    case PollPri => POLLPRI
    case PollOut => POLLOUT
    case PollErr => POLLERR
    case PollHup => POLLHUP
    case PollNval => POLLNVAL
  }

  /** Each named condition is one bit of KNOWN_BITS, and no two share a bit. */
  lemma FlagsAreDistinctBits(f: Flag, g: Flag)
    ensures Bit(f) != 0 && Bit(f) & (Bit(f) - 1) == 0
    ensures Bit(f) & KNOWN_BITS == Bit(f)
    ensures f != g ==> Bit(f) & Bit(g) == 0
  {
  }

  /** The readiness set of one descriptor, as `poll` reports it. */
  datatype EventSet = EventSet(events: bv16) {

    predicate Has(f: Flag) {
      events & Bit(f) == Bit(f)
    }

    /** The named conditions present in the set. */
    function Flags(): (fs: set<Flag>)
      ensures forall f :: f in fs <==> Has(f)
    {
      (if Has(PollIn) then {PollIn} else {}) +
      (if Has(PollPri) then {PollPri} else {}) +
      (if Has(PollOut) then {PollOut} else {}) +
      (if Has(PollErr) then {PollErr} else {}) +
      (if Has(PollHup) then {PollHup} else {}) +
      (if Has(PollNval) then {PollNval} else {})
    }

    /** Readable covers both normal and high-priority data. */
    function IsReadable(): (b: bool)
      ensures b <==> PollIn in Flags() || PollPri in Flags()
    {
      (events & POLLIN) == POLLIN || (events & POLLPRI) == POLLPRI
    }

    function IsHighPrioReadable(): (b: bool)
      ensures b <==> PollPri in Flags()
      ensures b ==> IsReadable()
    {
      (events & POLLPRI) == POLLPRI
    }

    function IsWritable(): (b: bool)
      ensures b <==> PollOut in Flags()
    {
      (events & POLLOUT) == POLLOUT
    }

    function IsNotValid(): (b: bool)
      ensures b <==> PollNval in Flags()
    {
      (events & POLLNVAL) == POLLNVAL
    }

    function IsError(): (b: bool)
      ensures b <==> PollErr in Flags()
    {
      (events & POLLERR) == POLLERR
    }

    function IsHangup(): (b: bool)
      ensures b <==> PollHup in Flags()
    {
      (events & POLLHUP) == POLLHUP
    }

    /** Empty means no bit at all: no named condition and no other bit. */
    function IsEmpty(): (b: bool)
      ensures b <==> Flags() == {} && events & !KNOWN_BITS == 0
      ensures b ==> !IsReadable() && !IsWritable() && !IsHangup() && !IsError() && !IsNotValid()
    {
      events == 0
    }
  }

  function Empty(): (es: EventSet)
    ensures es.IsEmpty() && es.Flags() == {}
  {
    EventSet(0)
  }

  /** The bit-set whose named conditions are exactly `fs`. */
  function FromFlags(fs: set<Flag>): EventSet {
    EventSet(
      (if PollIn in fs then POLLIN else 0) |
      (if PollPri in fs then POLLPRI else 0) |
      (if PollOut in fs then POLLOUT else 0) |
      (if PollErr in fs then POLLERR else 0) |
      (if PollHup in fs then POLLHUP else 0) |
      (if PollNval in fs then POLLNVAL else 0))
  }

  /** Reading the named conditions back from the bit-set built from them gives them back. */
  lemma FlagsOfFromFlags(fs: set<Flag>)
    ensures FromFlags(fs).Flags() == fs
  {
  }

  /** The bit-set is determined by its named conditions, up to the unnamed bits. */
  lemma FromFlagsOfFlags(es: EventSet)
    ensures FromFlags(es.Flags()).events == es.events & KNOWN_BITS
  {
  }

  /** Accumulates an interest set before registration. */
  datatype EventSetBuilder = EventSetBuilder(eventset: EventSet) {

    static function New(): (b: EventSetBuilder)
      ensures b.eventset.IsEmpty()
    {
      EventSetBuilder(Empty())
    }

    function Finalize(): EventSet {
      eventset
    }

    /** Adds read interest (normal and high-priority), leaving every other bit as it was. */
    function Readable(): (b: EventSetBuilder)
      ensures b.eventset.Flags() == eventset.Flags() + {PollIn, PollPri}
      ensures b.eventset.events & !(POLLIN | POLLPRI) == eventset.events & !(POLLIN | POLLPRI)
    {
      EventSetBuilder(EventSet(eventset.events | POLLIN | POLLPRI))
    }

    /** Adds write interest, leaving every other bit as it was. */
    function Writable(): (b: EventSetBuilder)
      ensures b.eventset.Flags() == eventset.Flags() + {PollOut}
      ensures b.eventset.events & !POLLOUT == eventset.events & !POLLOUT
    {
      EventSetBuilder(EventSet(eventset.events | POLLOUT))
    }

    /** Replaces the interest with read and write interest, whatever was there before. */
    function All(): (b: EventSetBuilder)
      ensures b.eventset.Flags() == {PollIn, PollPri, PollOut}
      ensures b.eventset.events & !KNOWN_BITS == 0
    {
      EventSetBuilder(EventSet(POLLIN | POLLPRI | POLLOUT))
    }
  }

  /** The interest set that `register_stdin` and `register_read` use. */
  function ReadInterest(): EventSet {
    EventSetBuilder.New().Readable().Finalize()
  }

  /** The interest set that `register_write` uses. */
  function WriteInterest(): EventSet {
    EventSetBuilder.New().Writable().Finalize()
  }

  /** A fresh builder made readable holds exactly POLLIN|POLLPRI: readable, nothing else. */
  lemma ReadInterestIsExact()
    ensures ReadInterest().events == POLLIN | POLLPRI
    ensures ReadInterest().IsReadable() && !ReadInterest().IsWritable()
    ensures ReadInterest().Flags() == {PollIn, PollPri}
  {
  }

  /** A fresh builder made writable holds exactly POLLOUT. */
  lemma WriteInterestIsExact()
    ensures WriteInterest().events == POLLOUT
    ensures WriteInterest().IsWritable() && !WriteInterest().IsReadable()
  {
  }

  // ---------------------------------------------------------------------
  // Display

  function Name(f: Flag): (s: string)
    ensures |s| > 0 && '|' !in s
  {
    match f
    case PollIn => "POLLIN"
    case PollPri => "POLLPRI"
    case PollOut => "POLLOUT"
    case PollErr => "POLLERR"
    case PollHup => "POLLHUP"
    case PollNval => "POLLNVAL"
  }

  /** What `Display` pushes for a set condition: its name and a '|'. */
  function Text(f: Flag): (t: string)
    ensures t == Name(f) + "|"
  {
    match f
    case PollIn => "POLLIN|"
    case PollPri => "POLLPRI|"
    case PollOut => "POLLOUT|"
    case PollErr => "POLLERR|"
    case PollHup => "POLLHUP|"
    case PollNval => "POLLNVAL|"
  }

  /** The order in which `Display` lists the conditions. */
  const DISPLAY_ORDER: seq<Flag> := [PollIn, PollOut, PollErr, PollHup, PollNval, PollPri]

  /** The names of the conditions of `fs` that `es` holds, in the order of `fs`. */
  function NamesIn(es: EventSet, fs: seq<Flag>): seq<string> {
    if fs == [] then []
    else NamesIn(es, fs[..|fs| - 1]) + (if es.Has(fs[|fs| - 1]) then [Name(fs[|fs| - 1])] else [])
  }

  function Names(es: EventSet): seq<string> {
    NamesIn(es, DISPLAY_ORDER)
  }

  /** The names joined with '|' between them. */
  function Joined(ns: seq<string>): string {
    if |ns| == 0 then ""
    else if |ns| == 1 then ns[0]
    else Joined(ns[..|ns| - 1]) + "|" + ns[|ns| - 1]
  }

  /** The names, each followed by '|' (what `Display` builds before trimming). */
  function Terminated(ns: seq<string>): string {
    if ns == [] then "" else Terminated(ns[..|ns| - 1]) + ns[|ns| - 1] + "|"
  }

  /** The text `Display` renders for a set. */
  function Rendered(es: EventSet): string {
    Joined(Names(es))
  }

  /** Segments of `s` between '|' characters (the inverse of Joined). */
  function Split(s: string): (parts: seq<string>)
    ensures |parts| >= 1
  {
    if s == [] then [""]
    else
      var init := Split(s[..|s| - 1]);
      if s[|s| - 1] == '|' then init + [""]
      else init[..|init| - 1] + [init[|init| - 1] + [s[|s| - 1]]]
  }

  /** Dropping the final '|' of the terminated form gives the joined form. */
  lemma {:induction false} TrimTerminated(ns: seq<string>)
    requires ns != []
    ensures |Terminated(ns)| > 0
    ensures Terminated(ns)[..|Terminated(ns)| - 1] == Joined(ns)
  {
    var init := ns[..|ns| - 1];
    if init == [] {
      assert ns == [ns[0]];
    } else {
      TrimTerminated(init);
      assert Terminated(init) == Joined(init) + "|";
    }
  }

  /** What `Display` appends for one condition: its name and '|' when set, nothing otherwise. */
  function Piece(es: EventSet, f: Flag): string {
    if es.Has(f) then Text(f) else ""
  }

  function Pieces(es: EventSet, fs: seq<Flag>): string {
    if fs == [] then "" else Pieces(es, fs[..|fs| - 1]) + Piece(es, fs[|fs| - 1])
  }

  /** Appending the pieces one by one builds the terminated list of names. */
  lemma {:induction false} PiecesAreTerminated(es: EventSet, fs: seq<Flag>)
    ensures Pieces(es, fs) == Terminated(NamesIn(es, fs))
  {
    if fs != [] {
      var init, f := fs[..|fs| - 1], fs[|fs| - 1];
      PiecesAreTerminated(es, init);
      var ns := NamesIn(es, init);
      assert Pieces(es, fs) == Pieces(es, init) + Piece(es, f);
      if es.Has(f) {
        var ns' := ns + [Name(f)];
        assert NamesIn(es, fs) == ns';
        assert ns'[..|ns'| - 1] == ns;
        assert Terminated(ns') == Terminated(ns) + Name(f) + "|";
      } else {
        assert NamesIn(es, fs) == ns;
      }
    }
  }

  /** Everything `Display` appends, one piece per condition in display order. */
  function AllPieces(es: EventSet): string {
    "" + Piece(es, PollIn) + Piece(es, PollOut) + Piece(es, PollErr) +
    Piece(es, PollHup) + Piece(es, PollNval) + Piece(es, PollPri)
  }

  lemma PiecesInDisplayOrder(es: EventSet)
    ensures Pieces(es, DISPLAY_ORDER) == AllPieces(es)
  {
    var d := DISPLAY_ORDER;
    var p1 := "" + Piece(es, PollIn);
    var p2 := p1 + Piece(es, PollOut);
    var p3 := p2 + Piece(es, PollErr);
    var p4 := p3 + Piece(es, PollHup);
    var p5 := p4 + Piece(es, PollNval);
    assert d[..1][..0] == [] && d[..1][0] == PollIn;
    assert Pieces(es, d[..1]) == p1;
    assert d[..2][..1] == d[..1] && d[..2][1] == PollOut;
    assert Pieces(es, d[..2]) == p2;
    assert d[..3][..2] == d[..2] && d[..3][2] == PollErr;
    assert Pieces(es, d[..3]) == p3;
    assert d[..4][..3] == d[..3] && d[..4][3] == PollHup;
    assert Pieces(es, d[..4]) == p4;
    assert d[..5][..4] == d[..4] && d[..5][4] == PollNval;
    assert Pieces(es, d[..5]) == p5;
    assert d[..|d| - 1] == d[..5] && d[5] == PollPri;
  }

  /** Trimming the last character of everything appended gives the rendered text. */
  lemma TrimmedPiecesAreRendered(es: EventSet, s: string)
    requires s == AllPieces(es)
    ensures s == "" ==> Rendered(es) == ""
    ensures s != "" ==> s[..|s| - 1] == Rendered(es)
  {
    PiecesInDisplayOrder(es);
    PiecesAreTerminated(es, DISPLAY_ORDER);
    if Names(es) != [] {
      TrimTerminated(Names(es));
    }
  }

  /** One guarded `push_str`: appends the condition's name and '|' when `es` holds it. */
  method PushIfSet(s: string, es: EventSet, f: Flag) returns (s': string)
    ensures s' == s + Piece(es, f)
  {
    s' := s;
    if es.Has(f) {
      s' := s' + Text(f);
    }
  }

  /**
   * Display fmt: each set condition's name plus '|', in display order, then
   * the last character removed. `es.Has(f)` is the test `(events & F) == F`.
   */
  method Display(es: EventSet) returns (s: string)
    ensures s == Rendered(es)
  {
    s := "";
    s := PushIfSet(s, es, PollIn);
    s := PushIfSet(s, es, PollOut);
    s := PushIfSet(s, es, PollErr);
    s := PushIfSet(s, es, PollHup);
    s := PushIfSet(s, es, PollNval);
    s := PushIfSet(s, es, PollPri);
    assert s == AllPieces(es);
    TrimmedPiecesAreRendered(es, s);
    if s != [] {
      s := s[..|s| - 1];
    }
  }

  // ---------------------------------------------------------------------
  // What the rendered text says

  /** Text without '|' is a single segment. */
  lemma {:induction false} SplitSingle(t: string)
    requires '|' !in t
    ensures Split(t) == [t]
  {
    if t != [] {
      SplitSingle(t[..|t| - 1]);
      assert t[..|t| - 1] + [t[|t| - 1]] == t;
    }
  }

  /** A '|' followed by bar-free text adds exactly that text as the last segment. */
  lemma {:induction false} SplitAppend(s: string, t: string)
    requires '|' !in t
    ensures Split(s + "|" + t) == Split(s) + [t]
  {
    var u := s + "|" + t;
    if t == [] {
      assert u == s + "|";
      assert u[..|u| - 1] == s;
    } else {
      var t' := t[..|t| - 1];
      SplitAppend(s, t');
      assert u[..|u| - 1] == s + "|" + t';
      assert t' + [t[|t| - 1]] == t;
    }
  }

  /** Split undoes Joined for a non-empty list of bar-free names. */
  lemma {:induction false} SplitJoined(ns: seq<string>)
    requires ns != []
    requires forall i :: 0 <= i < |ns| ==> '|' !in ns[i]
    ensures Split(Joined(ns)) == ns
  {
    if |ns| == 1 {
      SplitSingle(ns[0]);
    } else {
      var init := ns[..|ns| - 1];
      SplitJoined(init);
      SplitAppend(Joined(init), ns[|ns| - 1]);
      assert init + [ns[|ns| - 1]] == ns;
    }
  }

  /** Each listed name is non-empty and holds no '|'. */
  lemma {:induction false} NamesInBarFree(es: EventSet, fs: seq<Flag>)
    ensures forall i :: 0 <= i < |NamesIn(es, fs)| ==> |NamesIn(es, fs)[i]| > 0 && '|' !in NamesIn(es, fs)[i]
  {
    if fs != [] {
      NamesInBarFree(es, fs[..|fs| - 1]);
    }
  }

  /** The listed names are the names of exactly the set conditions of `fs`. */
  lemma {:induction false} NamesInMembers(es: EventSet, fs: seq<Flag>)
    ensures forall f :: Name(f) in NamesIn(es, fs) <==> f in fs && es.Has(f)
  {
    if fs != [] {
      var init, g := fs[..|fs| - 1], fs[|fs| - 1];
      NamesInMembers(es, init);
      assert fs == init + [g];
      forall f
        ensures Name(f) in NamesIn(es, fs) <==> f in fs && es.Has(f)
      {
        if Name(f) == Name(g) {
          assert f == g;
        }
      }
    }
  }

  /** Nothing is listed exactly when no condition of `fs` is set. */
  lemma {:induction false} NamesInEmpty(es: EventSet, fs: seq<Flag>)
    ensures NamesIn(es, fs) == [] <==> forall f :: f in fs ==> !es.Has(f)
  {
    if fs != [] {
      var init, g := fs[..|fs| - 1], fs[|fs| - 1];
      NamesInEmpty(es, init);
      assert fs == init + [g];
    }
  }

  /** A non-empty list of non-empty names joins to text with no '|' at either end. */
  lemma {:induction false} JoinedEnds(ns: seq<string>)
    requires ns != []
    requires forall i :: 0 <= i < |ns| ==> |ns[i]| > 0 && '|' !in ns[i]
    ensures |Joined(ns)| > 0
    ensures Joined(ns)[0] != '|' && Joined(ns)[|Joined(ns)| - 1] != '|'
  {
    if |ns| > 1 {
      var init := ns[..|ns| - 1];
      JoinedEnds(init);
      var last := ns[|ns| - 1];
      assert last[|last| - 1] in last;
      assert Joined(ns)[|Joined(ns)| - 1] == last[|last| - 1];
    } else {
      assert ns[0][0] in ns[0] && ns[0][|ns[0]| - 1] in ns[0];
    }
  }

  /**
   * The rendered text is empty exactly when no named condition is set;
   * otherwise it has no '|' at either end and its '|'-separated segments are
   * the names of exactly the set conditions, in display order.
   */
  lemma RenderedListsSetFlags(es: EventSet)
    ensures Rendered(es) == "" <==> es.Flags() == {}
    ensures Rendered(es) != "" ==> Rendered(es)[0] != '|' && Rendered(es)[|Rendered(es)| - 1] != '|'
    ensures Rendered(es) != "" ==> Split(Rendered(es)) == Names(es)
    ensures forall f :: Name(f) in Names(es) <==> f in es.Flags()
  {
    var d := DISPLAY_ORDER;
    forall f
      ensures f in d
    {
      match f
      case PollIn => assert d[0] == f;
      case PollOut => assert d[1] == f;
      case PollErr => assert d[2] == f;
      case PollHup => assert d[3] == f;
      case PollNval => assert d[4] == f;
      case PollPri => assert d[5] == f;
    }
    NamesInBarFree(es, d);
    NamesInMembers(es, d);
    NamesInEmpty(es, d);
    if Names(es) != [] {
      JoinedEnds(Names(es));
      SplitJoined(Names(es));
    }
  }
}
