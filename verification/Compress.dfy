/**
 * Turn-based compression of a conversation (internal/promptcompat/prompt_compress.go). A turn
 * starts at a user message and runs to the next one. Roles are the trimmed, lower-cased ones;
 * an item that is not a message has role Other.
 */
module Compress {

  type Body(==)

  datatype Role = System | User | Assistant | ToolResult | Other

  datatype Message = Message(role: Role, body: Body)

  datatype Settings = Settings(
    enabled: bool, autoCompress: bool, keepSystem: bool, keepRecentTurns: int, maxDefault: int, maxExpert: int)

  datatype Request = Request(messages: seq<Message>, expert: bool, prompt: string, toolNames: seq<string>)

  /** Rebuilds the prompt and the tool names from a message list; the request's other fields are fixed. */
  type Builder = seq<Message> -> (string, seq<string>)

  function AtLeastOne(n: int): nat {
    if n < 1 then 1 else n
  }

  function UserTurns(s: seq<Message>): nat {
    if s == [] then 0 else UserTurns(s[..|s| - 1]) + if s[|s| - 1].role.User? then 1 else 0
  }

  /** The length of the leading run of system messages, when those are kept. */
  function SystemRun(s: seq<Message>, keepSystem: bool): (n: nat)
    ensures n <= |s|
    ensures forall i :: 0 <= i < n ==> s[i].role.System?
    ensures !keepSystem ==> n == 0
    ensures keepSystem && n < |s| ==> !s[n].role.System?
  {
    if keepSystem && s != [] && s[0].role.System? then 1 + SystemRun(s[1..], keepSystem) else 0
  }

  /** The position of the n-th user message from the end. */
  function TurnStart(s: seq<Message>, n: nat): (r: nat)
    requires 1 <= n <= UserTurns(s)
    ensures r < |s| && s[r].role.User?
  {
    var front := s[..|s| - 1];
    if !s[|s| - 1].role.User? then TurnStart(front, n)
    else if n == 1 then |s| - 1
    else TurnStart(front, n - 1)
  }

  /** What compression to `keepRecent` turns leaves. */
  function Compressed(s: seq<Message>, keepSystem: bool, keepRecent: int): seq<Message> {
    var n := AtLeastOne(keepRecent);
    if UserTurns(s) <= n then s else s[..SystemRun(s, keepSystem)] + s[TurnStart(s, n)..]
  }

  // ---------------------------------------------------------------- counting turns

  lemma {:induction false} TurnsSplit(a: seq<Message>, b: seq<Message>)
    ensures UserTurns(a + b) == UserTurns(a) + UserTurns(b)
    decreases |b|
  {
    if b == [] {
      assert a + b == a;
    } else {
      TurnsSplit(a, b[..|b| - 1]);
      assert (a + b)[..|a + b| - 1] == a + b[..|b| - 1];
    }
  }

  lemma TurnsFrom(s: seq<Message>, i: nat, j: nat)
    requires i <= j <= |s|
    ensures UserTurns(s[i..]) == UserTurns(s[i..j]) + UserTurns(s[j..])
  {
    TurnsSplit(s[i..j], s[j..]);
    assert s[i..] == s[i..j] + s[j..];
  }

  lemma {:induction false} NoTurns(s: seq<Message>)
    requires forall i :: 0 <= i < |s| ==> !s[i].role.User?
    ensures UserTurns(s) == 0
  {
    if s != [] {
      NoTurns(s[..|s| - 1]);
    }
  }

  lemma FirstIsTurn(s: seq<Message>)
    requires s != [] && s[0].role.User?
    ensures UserTurns(s) >= 1
  {
    TurnsSplit(s[..1], s[1..]);
    assert s == s[..1] + s[1..];
    assert s[..1][..0] == [];
  }

  /** Exactly n turns follow from the n-th user message from the end. */
  lemma {:induction false} TurnStartCounts(s: seq<Message>, n: nat)
    requires 1 <= n <= UserTurns(s)
    ensures UserTurns(s[TurnStart(s, n)..]) == n
  {
    var front, r := s[..|s| - 1], TurnStart(s, n);
    if s[|s| - 1].role.User? && n == 1 {
      assert s[r..] == [s[r]];
      assert [s[r]][..0] == [];
    } else {
      TurnStartCounts(front, if s[|s| - 1].role.User? then n - 1 else n);
      assert s[r..][..|s| - r - 1] == front[r..];
    }
  }

  /** Fewer turns start later; so a user message with a given number of turns from it is unique. */
  lemma LaterStart(s: seq<Message>, i: nat, j: nat)
    requires i < |s| && j < |s| && s[i].role.User? && s[j].role.User?
    ensures UserTurns(s[i..]) < UserTurns(s[j..]) <==> j < i
    ensures UserTurns(s[i..]) == UserTurns(s[j..]) <==> i == j
  {
    if i < j {
      TurnsFrom(s, i, j);
      FirstIsTurn(s[i..j]);
    } else if j < i {
      TurnsFrom(s, j, i);
      FirstIsTurn(s[j..i]);
    }
  }

  lemma TurnStartIs(s: seq<Message>, n: nat, r: nat)
    requires 1 <= n <= UserTurns(s)
    requires r < |s| && s[r].role.User? && UserTurns(s[r..]) == n
    ensures TurnStart(s, n) == r
  {
    TurnStartCounts(s, n);
    LaterStart(s, r, TurnStart(s, n));
  }

  lemma SystemRunHasNoTurns(s: seq<Message>, keepSystem: bool)
    ensures var k := SystemRun(s, keepSystem);
      UserTurns(s[..k]) == 0 && UserTurns(s[k..]) == UserTurns(s)
  {
    var k := SystemRun(s, keepSystem);
    NoTurns(s[..k]);
    TurnsSplit(s[..k], s[k..]);
    assert s == s[..k] + s[k..];
  }

  lemma StartAfterSystem(s: seq<Message>, keepSystem: bool, n: nat)
    requires 1 <= n <= UserTurns(s)
    ensures SystemRun(s, keepSystem) <= TurnStart(s, n)
  {
  }

  // ---------------------------------------------------------------- properties of the result

  /** `out` is the leading system run of `s` and a suffix that starts a turn and holds n turns. */
  ghost predicate IsWindow(s: seq<Message>, keepSystem: bool, n: nat, start: nat, out: seq<Message>) {
    && SystemRun(s, keepSystem) <= start < |s|
    && s[start].role.User?
    && UserTurns(s[start..]) == n
    && out == s[..SystemRun(s, keepSystem)] + s[start..]
  }

  lemma CompressedIsWindow(s: seq<Message>, keepSystem: bool, keepRecent: int)
    requires UserTurns(s) > AtLeastOne(keepRecent)
    ensures var n := AtLeastOne(keepRecent);
      IsWindow(s, keepSystem, n, TurnStart(s, n), Compressed(s, keepSystem, keepRecent))
    ensures UserTurns(Compressed(s, keepSystem, keepRecent)) == AtLeastOne(keepRecent)
  {
    var n := AtLeastOne(keepRecent);
    TurnStartCounts(s, n);
    StartAfterSystem(s, keepSystem, n);
    SystemRunHasNoTurns(s, keepSystem);
    TurnsSplit(s[..SystemRun(s, keepSystem)], s[TurnStart(s, n)..]);
  }

  lemma SuffixShape(s: seq<Message>, k: nat, t: nat, u: nat)
    requires k <= t <= u <= |s|
    ensures var small, large := s[..k] + s[u..], s[..k] + s[t..];
      && k <= |small| <= |large|
      && small[..k] == large[..k] == s[..k]
      && small[k..] == large[|large| - (|small| - k)..]
  {
    var small, large := s[..k] + s[u..], s[..k] + s[t..];
    assert small[k..] == s[u..];
    assert large[k + u - t..] == s[u..];
  }

  /** The window of fewer turns is a suffix of the window of more turns, after the same system run. */
  lemma SmallerWindowIsSuffix(s: seq<Message>, keepSystem: bool, a: int, b: int)
    requires AtLeastOne(a) <= AtLeastOne(b) < UserTurns(s)
    ensures var k := SystemRun(s, keepSystem);
      var small, large := Compressed(s, keepSystem, a), Compressed(s, keepSystem, b);
      && k <= |small| <= |large|
      && small[..k] == large[..k] == s[..k]
      && small[k..] == large[|large| - (|small| - k)..]
  {
    hide UserTurns, SystemRun, TurnStart, Compressed;
    CompressedIsWindow(s, keepSystem, a);
    CompressedIsWindow(s, keepSystem, b);
    var t, u := TurnStart(s, AtLeastOne(b)), TurnStart(s, AtLeastOne(a));
    LaterStart(s, u, t);
    SuffixShape(s, SystemRun(s, keepSystem), t, u);
  }

  lemma {:induction false} RunOfWindow(s: seq<Message>, keepSystem: bool, k: nat, tail: seq<Message>)
    requires k == SystemRun(s, keepSystem)
    requires tail == [] || !tail[0].role.System?
    ensures SystemRun(s[..k] + tail, keepSystem) == k
  {
    if k == 0 {
      assert s[..k] + tail == tail;
    } else {
      RunOfWindow(s[1..], keepSystem, k - 1, tail);
      assert (s[..k] + tail)[1..] == s[1..][..k - 1] + tail;
    }
  }

  lemma WindowIsCompressed(s: seq<Message>, keepSystem: bool, n: nat, start: nat, out: seq<Message>)
    requires 1 <= n < UserTurns(s) && IsWindow(s, keepSystem, n, start, out)
    ensures out == Compressed(s, keepSystem, n)
  {
    TurnStartIs(s, n, start);
  }

  lemma CompressCut(s: seq<Message>, keepSystem: bool, keepRecent: int)
    requires UserTurns(s) > AtLeastOne(keepRecent)
    ensures Compressed(s, keepSystem, keepRecent) ==
            s[..SystemRun(s, keepSystem)] + s[TurnStart(s, AtLeastOne(keepRecent))..]
  {
  }

  lemma CompressUncut(s: seq<Message>, keepSystem: bool, keepRecent: int)
    requires UserTurns(s) <= AtLeastOne(keepRecent)
    ensures Compressed(s, keepSystem, keepRecent) == s
  {
  }

  /** Compressing in steps gives what compressing once to the smaller window gives. */
  lemma CompressTwice(s: seq<Message>, keepSystem: bool, a: int, b: int)
    requires AtLeastOne(a) <= AtLeastOne(b)
    ensures Compressed(Compressed(s, keepSystem, b), keepSystem, a) == Compressed(s, keepSystem, a)
  {
    hide UserTurns, SystemRun, TurnStart, Compressed;
    var n, m := AtLeastOne(a), AtLeastOne(b);
    if UserTurns(s) <= m {
      CompressUncut(s, keepSystem, b);
    } else {
      var k, t, u := SystemRun(s, keepSystem), TurnStart(s, m), TurnStart(s, n);
      var large, small := Compressed(s, keepSystem, b), Compressed(s, keepSystem, a);
      CompressedIsWindow(s, keepSystem, b);
      CompressedIsWindow(s, keepSystem, a);
      LaterStart(s, u, t);
      if n == m {
        CompressUncut(large, keepSystem, a);
        assert large == small;
      } else {
        RunOfWindow(s, keepSystem, k, s[t..]);
        var v := k + u - t;
        assert large[v..] == s[u..];
        assert large[v] == s[u];
        assert large[..k] == s[..k];
        assert IsWindow(large, keepSystem, n, v, small);
        WindowIsCompressed(large, keepSystem, n, v, small);
        CompressedArgument(large, keepSystem, a);
      }
    }
  }

  lemma CompressedArgument(s: seq<Message>, keepSystem: bool, keepRecent: int)
    ensures Compressed(s, keepSystem, keepRecent) == Compressed(s, keepSystem, AtLeastOne(keepRecent))
  {
  }

  // ---------------------------------------------------------------- the operations

  method DropLeadingOrphanToolResults(s: seq<Message>) returns (r: seq<Message>)
    ensures |r| <= |s| && r == s[|s| - |r|..]
    ensures forall i :: 0 <= i < |s| - |r| ==> s[i].role.ToolResult?
    ensures r != [] ==> !r[0].role.ToolResult?
  {
    var i := 0;
    while i < |s| && s[i].role.ToolResult?
      invariant i <= |s|
      invariant forall j :: 0 <= j < i ==> s[j].role.ToolResult?
    {
      i := i + 1;
    }
    r := s[i..];
  }

  lemma {:induction false} SystemRunIs(s: seq<Message>, k: nat)
    requires k <= |s|
    requires forall i :: 0 <= i < k ==> s[i].role.System?
    requires k < |s| ==> !s[k].role.System?
    ensures SystemRun(s, true) == k
  {
    if k > 0 {
      SystemRunIs(s[1..], k - 1);
    }
  }

  method SplitLeadingSystem(s: seq<Message>, keepSystem: bool) returns (sys: seq<Message>, rest: seq<Message>)
    ensures sys == s[..SystemRun(s, keepSystem)]
    ensures rest == s[SystemRun(s, keepSystem)..]
  {
    sys, rest := [], [];
    var leading := true;
    for i := 0 to |s|
      invariant sys + rest == s[..i]
      invariant leading ==> rest == []
      invariant forall j :: 0 <= j < |sys| ==> sys[j].role.System?
      invariant !keepSystem ==> sys == []
      invariant !leading && keepSystem ==> rest != [] && !rest[0].role.System?
    {
      if keepSystem && leading && s[i].role.System? {
        sys := sys + [s[i]];
      } else {
        leading := false;
        rest := rest + [s[i]];
      }
    }
    assert s == sys + rest;
    if keepSystem {
      SystemRunIs(s, |sys|);
    }
  }

  /** The positions of the user messages: as many as there are turns, the n-th from the end at the n-th place. */
  method TurnStarts(s: seq<Message>) returns (starts: seq<nat>)
    ensures |starts| == UserTurns(s)
    ensures forall n :: 1 <= n <= |starts| ==> starts[|starts| - n] == TurnStart(s, n)
  {
    starts := [];
    for i := 0 to |s|
      invariant |starts| == UserTurns(s[..i])
      invariant forall n :: 1 <= n <= |starts| ==> starts[|starts| - n] == TurnStart(s[..i], n)
    {
      assert s[..i + 1][..i] == s[..i];
      if s[i].role.User? {
        starts := starts + [i];
      }
    }
    assert s[..|s|] == s;
  }

  method RecentTurn(s: seq<Message>, keep: nat) returns (found: bool, start: nat)
    requires keep >= 1
    ensures found <==> UserTurns(s) > keep
    ensures found ==> start == TurnStart(s, keep)
  {
    var starts := TurnStarts(s);
    if |starts| <= keep {
      return false, 0;
    }
    return true, starts[|starts| - keep];
  }

  lemma TurnStartAfter(s: seq<Message>, k: nat, n: nat)
    requires k <= |s| && 1 <= n <= UserTurns(s[k..])
    ensures n <= UserTurns(s) && TurnStart(s, n) == k + TurnStart(s[k..], n)
  {
    TurnsSplit(s[..k], s[k..]);
    assert s == s[..k] + s[k..];
    var r := TurnStart(s[k..], n);
    TurnStartCounts(s[k..], n);
    assert s[k..][r..] == s[k + r..];
    TurnStartIs(s, n, k + r);
  }

  /**
   * The window after the cut starts at a user message, so no tool result is dropped from its front
   * and it is never empty: the branch that would keep just the last message cannot be taken.
   */
  method KeptWindow(rest: seq<Message>, start: nat) returns (kept: seq<Message>)
    requires start < |rest| && rest[start].role.User?
    ensures kept == rest[start..]
  {
    kept := DropLeadingOrphanToolResults(rest[start..]);
    if kept == [] {
      assert false;
    }
  }

  method CompressMessages(s: seq<Message>, keepSystem: bool, keepRecent: int)
    returns (out: seq<Message>, dropped: bool)
    ensures out == Compressed(s, keepSystem, keepRecent)
    ensures dropped <==> UserTurns(s) > AtLeastOne(keepRecent)
    ensures !dropped ==> out == s
  {
    hide UserTurns, SystemRun, TurnStart, Compressed;
    if s == [] {
      NoTurns(s);
      CompressUncut(s, keepSystem, keepRecent);
      return s, false;
    }
    var sys, rest := SplitLeadingSystem(s, keepSystem);
    SystemRunHasNoTurns(s, keepSystem);
    var keep := if keepRecent < 1 then 1 else keepRecent;
    var found, start := RecentTurn(rest, keep);
    if !found {
      CompressUncut(s, keepSystem, keepRecent);
      return s, false;
    }
    TurnStartAfter(s, SystemRun(s, keepSystem), keep);
    CompressCut(s, keepSystem, keepRecent);
    var kept := KeptWindow(rest, start);
    out, dropped := sys + kept, true;
  }

  /** Compaction drops whole turns and at least one of them, unless there is only one. */
  method CompactMessages(s: seq<Message>, keepSystem: bool, keepRecent: int)
    returns (out: seq<Message>, dropped: bool)
    ensures dropped <==> UserTurns(s) > 1
    ensures !dropped ==> out == s
    ensures dropped ==>
      var n := if AtLeastOne(keepRecent) < UserTurns(s) then AtLeastOne(keepRecent) else UserTurns(s) / 2;
      && 1 <= n < UserTurns(s)
      && out == Compressed(s, keepSystem, n)
      && UserTurns(out) == n
  {
    var turns := 0;
    for i := 0 to |s|
      invariant turns == UserTurns(s[..i])
    {
      assert s[..i + 1][..i] == s[..i];
      if s[i].role.User? {
        turns := turns + 1;
      }
    }
    assert s[..|s|] == s;
    if turns <= 1 {
      return s, false;
    }
    var keep := if keepRecent < 1 then 1 else keepRecent;
    if keep >= turns {
      keep := turns / 2;
    }
    out, dropped := CompressMessages(s, keepSystem, keep);
    CompressedIsWindow(s, keepSystem, keep);
  }

  /** The last `window` messages of `s` without their leading tool results, or just the last message. */
  ghost predicate IsRotationTail(s: seq<Message>, window: nat, kept: seq<Message>) {
    && 1 <= |kept| <= window <= |s|
    && kept == s[|s| - |kept|..]
    && (forall i :: |s| - window <= i < |s| - |kept| ==> s[i].role.ToolResult?)
    && (kept[0].role.ToolResult? ==> |kept| == 1)
  }

  method RotationTail(s: seq<Message>, window: nat) returns (kept: seq<Message>)
    requires 1 <= window <= |s|
    ensures IsRotationTail(s, window, kept)
  {
    var first := |s| - window;
    kept := DropLeadingOrphanToolResults(s[first..]);
    forall i | first <= i < |s| - |kept| ensures s[i].role.ToolResult? {
      assert s[i] == s[first..][i - first];
    }
    if kept == [] {
      kept := s[|s| - 1..];
    }
  }

  /**
   * The message-count window used when the upstream session is replaced. It is never empty, and only
   * leading tool results are dropped from it. It starts with a tool result only when it is nothing
   * but tool results, and then just the last one is kept.
   */
  method CompressForRotation(s: seq<Message>, keepSystem: bool, keepRecent: int)
    returns (out: seq<Message>, dropped: bool)
    ensures dropped <==> |s| - SystemRun(s, keepSystem) > if keepRecent >= 1 then 2 * keepRecent else 2
    ensures !dropped ==> out == s
    ensures dropped ==>
      exists kept :: IsRotationTail(s[SystemRun(s, keepSystem)..], if keepRecent >= 1 then 2 * keepRecent else 2, kept)
        && out == s[..SystemRun(s, keepSystem)] + kept
  {
    hide SystemRun, IsRotationTail;
    if s == [] {
      return s, false;
    }
    var sys, rest := SplitLeadingSystem(s, keepSystem);
    var window := keepRecent * 2;
    if window < 2 {
      window := 2;
    }
    if |rest| <= window {
      return s, false;
    }
    var kept := RotationTail(rest, window);
    out, dropped := sys + kept, true;
  }

  // ---------------------------------------------------------------- fitting the limit

  /** UTF-16 code units: characters beyond the basic plane take two. */
  function PromptUnits(s: string): nat {
    if s == "" then 0 else PromptUnits(s[1..]) + if s[0] as int >= 0x1_0000 then 2 else 1
  }

  /** The UTF-16 code units of a text: a surrogate pair for a character beyond the basic plane. */
  function Utf16(s: string): seq<nat> {
    if s == "" then []
    else
      var c := s[0] as int;
      (if c < 0x1_0000 then [c] else [0xd800 + (c - 0x1_0000) / 0x400, 0xdc00 + (c - 0x1_0000) % 0x400]) + Utf16(s[1..])
  }

  /** The code points that code units stand for. */
  function CodePoints(units: seq<nat>): seq<nat> {
    if units == [] then []
    else if 0xd800 <= units[0] < 0xdc00 && |units| > 1 && 0xdc00 <= units[1] < 0xe000 then
      [0x1_0000 + (units[0] - 0xd800) * 0x400 + (units[1] - 0xdc00)] + CodePoints(units[2..])
    else [units[0]] + CodePoints(units[1..])
  }

  /** Reading the code units gives back the text, and their number is its length in units. */
  lemma {:induction false} UnitsAreUtf16(s: string)
    ensures |Utf16(s)| == PromptUnits(s)
    ensures |CodePoints(Utf16(s))| == |s| && forall i :: 0 <= i < |s| ==> CodePoints(Utf16(s))[i] == s[i] as int
  {
    if s != "" {
      UnitsAreUtf16(s[1..]);
      var c, rest := s[0] as int, Utf16(s[1..]);
      if c < 0x1_0000 {
        assert ([c] + rest)[1..] == rest;
      } else {
        var high, low := 0xd800 + (c - 0x1_0000) / 0x400, 0xdc00 + (c - 0x1_0000) % 0x400;
        assert ([high, low] + rest)[2..] == rest;
      }
      assert forall i :: 0 < i < |s| ==> s[i] == s[1..][i - 1];
    }
  }

  function LimitForModel(cfg: Settings, expert: bool): int {
    if !cfg.enabled then 0 else if expert then cfg.maxExpert else cfg.maxDefault
  }

  /** The numbers of turns tried: a start and its successive halves down to one. */
  ghost predicate IsHalving(from: int, k: int)
    decreases from
  {
    from >= 1 && (k == from || IsHalving(from / 2, k))
  }

  /** Cutting to `keep` turns drops something and the prompt built from the rest fits. */
  ghost predicate Fits(cfg: Settings, req: Request, build: Builder, keep: int) {
    && UserTurns(req.messages) > keep
    && PromptUnits(build(Compressed(req.messages, cfg.keepSystem, keep)).0) <= LimitForModel(cfg, req.expert)
  }

  function NamesAt(cfg: Settings, req: Request, build: Builder, keep: int): seq<string> {
    build(Compressed(req.messages, cfg.keepSystem, keep)).1
  }

  /** A number of turns tried whose window leaves something out. */
  ghost predicate Tried(cfg: Settings, req: Request, k: int) {
    IsHalving(cfg.keepRecentTurns, k) && UserTurns(req.messages) > k
  }

  /** The tool names of the last window tried that had any, or the request's own. */
  ghost predicate NamesLast(cfg: Settings, req: Request, build: Builder, names: seq<string>, keep: int) {
    || (&& names == req.toolNames
        && forall j :: Tried(cfg, req, j) && keep <= j ==> NamesAt(cfg, req, build, j) == [])
    || exists k :: Tried(cfg, req, k) && keep <= k
        && names == NamesAt(cfg, req, build, k) != []
        && forall j :: Tried(cfg, req, j) && keep <= j < k ==> NamesAt(cfg, req, build, j) == []
  }

  /** `out` is the request cut from its whole history to `keep` turns, one of the numbers tried. */
  ghost predicate Cut(cfg: Settings, req: Request, build: Builder, out: Request, keep: int) {
    && Tried(cfg, req, keep)
    && out.messages == Compressed(req.messages, cfg.keepSystem, keep)
    && out.prompt == build(out.messages).0
    && NamesLast(cfg, req, build, out.toolNames, keep)
    && out.expert == req.expert
  }

  lemma {:induction false} HalvingBounds(from: int, k: int)
    requires IsHalving(from, k)
    ensures 1 <= k <= from
    decreases from
  {
    if k != from {
      HalvingBounds(from / 2, k);
    }
  }

  lemma {:induction false} HalvingsReachOne(from: int)
    requires from >= 1
    ensures IsHalving(from, 1)
  {
    if from > 1 {
      HalvingsReachOne(from / 2);
    }
  }

  lemma {:induction false} HalvingTransitive(from: int, mid: int, k: int)
    requires IsHalving(from, mid) && IsHalving(mid, k)
    ensures IsHalving(from, k)
    decreases from
  {
    if mid != from {
      HalvingTransitive(from / 2, mid, k);
    }
  }

  /** Every halving below a halving is reached from the next one. */
  lemma {:induction false} HalvingNext(from: int, mid: int, k: int)
    requires IsHalving(from, mid) && IsHalving(from, k) && k < mid
    ensures IsHalving(mid / 2, k)
    decreases from
  {
    if mid != from {
      HalvingBounds(from / 2, mid);
      HalvingNext(from / 2, mid, k);
    }
  }

  /** `last` and `next` are neighbours among the numbers tried. */
  ghost predicate Adjacent(from: int, last: int, next: int) {
    next < last && forall k :: IsHalving(from, k) ==> k >= last || k <= next
  }

  lemma AdjacentStep(from: int, keep: int)
    requires IsHalving(from, keep)
    ensures Adjacent(from, keep, keep / 2)
    ensures keep / 2 >= 1 ==> IsHalving(from, keep / 2)
  {
    HalvingBounds(from, keep);
    forall k | IsHalving(from, k) && k < keep ensures k <= keep / 2 {
      HalvingNext(from, keep, k);
      HalvingBounds(keep / 2, k);
    }
    if keep / 2 >= 1 {
      assert IsHalving(keep / 2, keep / 2);
      assert IsHalving(keep, keep / 2);
      HalvingTransitive(from, keep, keep / 2);
    }
  }

  lemma NamesStep(cfg: Settings, req: Request, build: Builder, names: seq<string>, last: int, keep: int)
    requires Adjacent(cfg.keepRecentTurns, last, keep)
    requires NamesLast(cfg, req, build, names, last)
    ensures !Tried(cfg, req, keep) ==> NamesLast(cfg, req, build, names, keep)
    ensures Tried(cfg, req, keep) ==>
      var now := NamesAt(cfg, req, build, keep);
      NamesLast(cfg, req, build, if |now| > 0 then now else names, keep)
  {
    hide Compressed, IsHalving, UserTurns, NamesAt;
  }

  lemma NothingTried(cfg: Settings, req: Request, build: Builder)
    ensures forall k :: IsHalving(cfg.keepRecentTurns, k) ==> 1 <= k <= cfg.keepRecentTurns
    ensures Adjacent(cfg.keepRecentTurns, cfg.keepRecentTurns + 1, cfg.keepRecentTurns)
    ensures NamesLast(cfg, req, build, req.toolNames, cfg.keepRecentTurns + 1)
    ensures cfg.keepRecentTurns >= 1 ==> IsHalving(cfg.keepRecentTurns, cfg.keepRecentTurns)
  {
    forall k | IsHalving(cfg.keepRecentTurns, k) ensures 1 <= k <= cfg.keepRecentTurns {
      HalvingBounds(cfg.keepRecentTurns, k);
    }
  }

  /**
   * The request comes back unchanged, or cut to the largest number of turns tried that fits, or, when
   * none fits, cut to one turn. Every window is cut from the original history.
   */
  method CompressToFit(cfg: Settings, req: Request, build: Builder) returns (out: Request, changed: bool)
    ensures
      var limit := if req.expert then cfg.maxExpert else cfg.maxDefault;
      && (changed <==>
            && cfg.enabled && cfg.autoCompress && 0 < limit < |Utf16(req.prompt)|
            && cfg.keepRecentTurns >= 1 && UserTurns(req.messages) > 1)
      && (changed ==>
            (|Utf16(out.prompt)| <= limit <==>
             exists k :: IsHalving(cfg.keepRecentTurns, k) && Fits(cfg, req, build, k)))
    ensures !changed ==> out == req
    ensures changed ==>
      exists keep :: Cut(cfg, req, build, out, keep)
        && (Fits(cfg, req, build, keep) || keep == 1)
        && forall k :: IsHalving(cfg.keepRecentTurns, k) && k > keep ==> !Fits(cfg, req, build, k)
  {
    hide Compressed, IsHalving, UserTurns, NamesLast, PromptUnits, Utf16;
    UnitsAreUtf16(req.prompt);
    out, changed := req, false;
    if !cfg.enabled || !cfg.autoCompress {
      return;
    }
    var limit := LimitForModel(cfg, req.expert);
    if limit <= 0 || PromptUnits(req.prompt) <= limit {
      return;
    }
    var keep := cfg.keepRecentTurns;
    ghost var last := keep + 1;
    NothingTried(cfg, req, build);
    while keep >= 1
      invariant keep >= 1 ==> IsHalving(cfg.keepRecentTurns, keep)
      invariant Adjacent(cfg.keepRecentTurns, last, keep)
      invariant keep < 1 <= cfg.keepRecentTurns ==> last == 1
      invariant forall k :: IsHalving(cfg.keepRecentTurns, k) && k >= last ==> !Fits(cfg, req, build, k)
      invariant NamesLast(cfg, req, build, out.toolNames, last)
      invariant !changed ==> out == req && forall k :: Tried(cfg, req, k) ==> k < last
      invariant changed ==> Cut(cfg, req, build, out, last)
    {
      var window, ok := CompressMessages(req.messages, cfg.keepSystem, keep);
      NamesStep(cfg, req, build, out.toolNames, last, keep);
      last := keep;
      AdjacentStep(cfg.keepRecentTurns, keep);
      HalvingBounds(cfg.keepRecentTurns, keep);
      if ok {
        var (prompt, names) := build(window);
        out := out.(messages := window, prompt := prompt, toolNames := if |names| > 0 then names else out.toolNames);
        changed := true;
        assert Cut(cfg, req, build, out, keep);
        if PromptUnits(prompt) <= limit {
          assert Fits(cfg, req, build, keep);
          UnitsAreUtf16(prompt);
          return;
        }
      }
      keep := keep / 2;
    }
    if cfg.keepRecentTurns >= 1 {
      HalvingsReachOne(cfg.keepRecentTurns);
      assert UserTurns(req.messages) > 1 ==> Tried(cfg, req, 1);
    }
    UnitsAreUtf16(out.prompt);
  }
}
