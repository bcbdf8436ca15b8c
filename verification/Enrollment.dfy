/** One-time enrollment tokens, and the list of pinned peers. */
module Enrollment {
  import opened Common

  /** The random text of a token. */
  datatype Token = Token(hex: string)

  datatype PendingToken = PendingToken(name: string, expires: Instant)

  type Pending = map<Token, PendingToken>

  function MintToken(pending: Pending, token: Token, name: string, ttl: nat, now: Instant): Pending {
    pending[token := PendingToken(name, now + ttl)]
  }

  function Unexpired(pending: Pending, now: Instant): Pending {
    map t <- pending | pending[t].expires > now :: pending[t]
  }

  /** Claiming drops every expired token, then consumes the one presented. */
  function ClaimToken(pending: Pending, token: Token, now: Instant): (Pending, Option<string>) {
    var valid := Unexpired(pending, now);
    (valid - {token}, if token in valid then Some(valid[token].name) else None)
  }

  /** A token minted now yields its name to a claim exactly until its time to live
      has passed, and no claim of another token is affected. */
  lemma MintedIsClaimableUntil(pending: Pending, token: Token, name: string, ttl: nat, now: Instant, other: Token, later: Instant)
    ensures ClaimToken(MintToken(pending, token, name, ttl, now), token, later).1 ==
            if later < now + ttl then Some(name) else None
    ensures other != token ==>
              ClaimToken(MintToken(pending, token, name, ttl, now), other, later).1 == ClaimToken(pending, other, later).1
  {
  }

  class Tokens {
    var pending: Pending

    constructor ()
      ensures pending == map[]
    {
      pending := map[];
    }

    /** `token` is the freshly drawn random token, `now` the clock reading. */
    method MintWithTtl(name: string, ttl: nat, token: Token, now: Instant)
      modifies this
      ensures pending == MintToken(old(pending), token, name, ttl, now)
    {
      pending := pending[token := PendingToken(name, now + ttl)];
    }

    method Claim(token: Token, now: Instant) returns (name: Option<string>)
      modifies this
      ensures (pending, name) == ClaimToken(old(pending), token, now)
    {
      pending := map t <- pending | pending[t].expires > now :: pending[t];
      if token in pending {
        name := Some(pending[token].name);
        pending := pending - {token};
      } else {
        name := None;
        assert pending - {token} == pending;
      }
    }
  }

  // -------------------------------------------------------------- whole runs

  datatype TokenEvent =
    | Minted(token: Token, name: string, ttl: nat, at: Instant)
    | Claimed(token: Token, at: Instant, result: Option<string>)

  /** The token table after the first `n` events. */
  function After(log: seq<TokenEvent>, n: nat): Pending
    requires n <= |log|
  {
    if n == 0 then map[]
    else match log[n - 1]
      case Minted(token, name, ttl, at) => MintToken(After(log, n - 1), token, name, ttl, at)
      case Claimed(token, at, _) => ClaimToken(After(log, n - 1), token, at).0
  }

  /** Claim `j` got the table's answer. */
  ghost predicate Answered(log: seq<TokenEvent>, j: nat)
    requires j < |log|
  {
    log[j].Claimed? ==> log[j].result == ClaimToken(After(log, j), log[j].token, log[j].at).1
  }

  /** A log the table could have produced: the clock never runs backwards, no
      token is drawn twice, and every claim got the table's answer. */
  ghost predicate Faithful(log: seq<TokenEvent>) {
    && (forall i: nat, j: nat :: i < j < |log| ==> log[i].at <= log[j].at)
    && (forall i: nat, j: nat :: i < j < |log| && log[i].Minted? && log[j].Minted? ==> log[i].token != log[j].token)
    && (forall j: nat :: j < |log| ==> Answered(log, j))
  }

  /** Event `m` is a successful claim of `token`. */
  ghost predicate Consumes(log: seq<TokenEvent>, m: nat, token: Token)
    requires m < |log|
  {
    log[m].Claimed? && log[m].token == token && log[m].result.Some?
  }

  /** Event `i` minted `token`, and no claim before `n` has consumed it. */
  ghost predicate Source(log: seq<TokenEvent>, i: nat, n: nat, token: Token)
    requires n <= |log|
  {
    && i < n && log[i].Minted? && log[i].token == token
    && forall m :: i < m < n ==> !Consumes(log, m, token)
  }

  function Entry(event: TokenEvent): PendingToken
    requires event.Minted?
  {
    PendingToken(event.name, event.at + event.ttl)
  }

  lemma {:induction false} PendingHasSource(log: seq<TokenEvent>, n: nat, token: Token) returns (i: nat)
    requires Faithful(log) && n <= |log| && token in After(log, n)
    ensures Source(log, i, n, token) && After(log, n)[token] == Entry(log[i])
  {
    if log[n - 1].Minted? && log[n - 1].token == token {
      i := n - 1;
    } else {
      i := PendingHasSource(log, n - 1, token);
      assert Answered(log, n - 1);
    }
  }

  /** The purge never drops a token that is still valid. */
  lemma {:induction false} ValidStaysPending(log: seq<TokenEvent>, i: nat, n: nat, token: Token)
    requires Faithful(log) && n <= |log| && Source(log, i, n, token)
    requires forall m :: i < m < n ==> log[m].at < Entry(log[i]).expires
    ensures token in After(log, n) && After(log, n)[token] == Entry(log[i])
  {
    if i < n - 1 {
      ValidStaysPending(log, i, n - 1, token);
      assert Answered(log, n - 1) && !Consumes(log, n - 1, token);
      assert log[n - 1].at < Entry(log[i]).expires;
    }
  }

  /** Event `i` is the mint that entitles claim `j` to `name`. */
  ghost predicate Entitles(log: seq<TokenEvent>, i: nat, j: nat, name: string)
    requires j < |log|
  {
    Source(log, i, j, log[j].token) && log[i].name == name && log[j].at < log[i].at + log[i].ttl
  }

  /** A claim succeeds with a name exactly when an earlier mint under that name
      drew the token, strictly less than its time to live ago, and no claim in
      between consumed it. */
  lemma ClaimSucceedsIff(log: seq<TokenEvent>, j: nat, name: string)
    requires Faithful(log) && j < |log| && log[j].Claimed?
    ensures log[j].result == Some(name) <==> exists i :: Entitles(log, i, j, name)
  {
    assert Answered(log, j);
    if log[j].result == Some(name) {
      var i := PendingHasSource(log, j, log[j].token);
      assert Entitles(log, i, j, name);
    }
    if i :| Entitles(log, i, j, name) {
      ValidStaysPending(log, i, j, log[j].token);
    }
  }

  /** Successful claims map injectively to mints: no token is claimed twice. */
  lemma ClaimsAreSingleUse(log: seq<TokenEvent>, j: nat, j': nat)
    requires Faithful(log) && j < j' < |log|
    requires log[j].Claimed? && log[j].result.Some? && log[j'].Claimed? && log[j'].result.Some?
    ensures log[j].token != log[j'].token
  {
    ClaimSucceedsIff(log, j, log[j].result.value);
    ClaimSucceedsIff(log, j', log[j'].result.value);
    var i: nat :| Entitles(log, i, j, log[j].result.value);
    var i': nat :| Entitles(log, i', j', log[j'].result.value);
    assert Consumes(log, j, log[j].token);
    assert i < i' ==> log[i].token != log[i'].token;
  }

  // -------------------------------------------------------------------- pins

  /** The key of a row of the pin file, which is compared as text: a key in its
      printed form, a key spelled some other way, or text that is no key. */
  datatype KeyText = Printed(key: Key) | Respelled(key: Key, spelling: string) | NoKey(text: string)

  predicate Names(text: KeyText, k: Key) {
    !text.NoKey? && text.key == k
  }

  /** One row of the pin file. */
  datatype Pin = Pin(text: KeyText, name: string)

  /** The rows left when those of the keys `gone`, as printed, are removed. */
  function WithoutPins(pins: seq<Pin>, gone: set<Key>): seq<Pin> {
    if pins == [] then []
    else if pins[0].text.Printed? && pins[0].text.key in gone then WithoutPins(pins[1..], gone)
    else [pins[0]] + WithoutPins(pins[1..], gone)
  }

  function WithoutText(pins: seq<Pin>, text: KeyText): seq<Pin> {
    if pins == [] then []
    else if pins[0].text == text then WithoutText(pins[1..], text)
    else [pins[0]] + WithoutText(pins[1..], text)
  }

  /** Pinning replaces whatever was pinned under the same text. */
  function WithPin(pins: seq<Pin>, text: KeyText, name: string): seq<Pin> {
    WithoutText(pins, text) + [Pin(text, name)]
  }

  /** The keys the rows name, in whatever spelling. */
  function PinnedKeys(pins: seq<Pin>): set<Key> {
    set pin <- pins | !pin.text.NoKey? :: pin.text.key
  }

  /** Some row names `k` in another spelling than the printed one. */
  ghost predicate RespelledIn(pins: seq<Pin>, k: Key) {
    exists pin <- pins :: pin.text.Respelled? && pin.text.key == k
  }

  lemma {:induction false} WithoutPinsKeeps(pins: seq<Pin>, gone: set<Key>)
    ensures forall pin :: pin in WithoutPins(pins, gone) <==>
              pin in pins && !(pin.text.Printed? && pin.text.key in gone)
  {
    if pins != [] {
      WithoutPinsKeeps(pins[1..], gone);
      assert forall pin :: pin in pins <==> pin == pins[0] || pin in pins[1..];
    }
  }

  lemma {:induction false} WithoutTextKeeps(pins: seq<Pin>, text: KeyText)
    ensures forall pin :: pin in WithoutText(pins, text) <==> pin in pins && pin.text != text
  {
    if pins != [] {
      WithoutTextKeeps(pins[1..], text);
      assert forall pin :: pin in pins <==> pin == pins[0] || pin in pins[1..];
    }
  }

  lemma {:induction false} WithoutPrinted(pins: seq<Pin>, k: Key)
    ensures WithoutText(pins, Printed(k)) == WithoutPins(pins, {k})
  {
    if pins != [] {
      WithoutPrinted(pins[1..], k);
    }
  }

  lemma WithPinHas(pins: seq<Pin>, text: KeyText, name: string)
    ensures forall pin :: pin in WithPin(pins, text, name) <==> pin == Pin(text, name) || (pin in pins && pin.text != text)
  {
    WithoutTextKeeps(pins, text);
  }

  lemma {:induction false} WithoutTextAbsent(pins: seq<Pin>, text: KeyText)
    requires forall pin <- pins :: pin.text != text
    ensures WithoutText(pins, text) == pins
  {
    if pins != [] {
      WithoutTextAbsent(pins[1..], text);
    }
  }

  lemma {:induction false} WithoutTextConcat(a: seq<Pin>, b: seq<Pin>, text: KeyText)
    ensures WithoutText(a + b, text) == WithoutText(a, text) + WithoutText(b, text)
  {
    if a == [] {
      assert a + b == b;
    } else {
      assert (a + b)[1..] == a[1..] + b;
      WithoutTextConcat(a[1..], b, text);
    }
  }

  /** Pinning the same text under the same name again leaves the file as it is. */
  lemma WithPinTwice(pins: seq<Pin>, text: KeyText, name: string)
    ensures WithPin(WithPin(pins, text, name), text, name) == WithPin(pins, text, name)
  {
    var rest := WithoutText(pins, text);
    WithoutTextKeeps(pins, text);
    WithoutTextAbsent(rest, text);
    WithoutTextConcat(rest, [Pin(text, name)], text);
  }

  /** The pin file: absent until first written. */
  class Pins {
    var file: Option<seq<Pin>>

    function Contents(): seq<Pin>
      reads this
    {
      if file.Some? then file.value else []
    }

    constructor (file: Option<seq<Pin>>)
      ensures this.file == file
    {
      this.file := file;
    }

    method Load() returns (pins: seq<Pin>)
      ensures pins == Contents()
    {
      pins := if file.Some? then file.value else [];
    }

    /** The rows of other texts, in order. */
    static method Retain(pins: seq<Pin>, text: KeyText) returns (kept: seq<Pin>)
      ensures kept == WithoutText(pins, text)
    {
      kept := [];
      for i := 0 to |pins|
        invariant kept + WithoutText(pins[i..], text) == WithoutText(pins, text)
      {
        if pins[i].text != text {
          kept := kept + [pins[i]];
        }
      }
    }

    /** `writable` says whether the write succeeds; a failed one leaves the file
        as it was. */
    method Add(text: KeyText, name: string, writable: bool) returns (saved: bool)
      modifies this
      ensures saved == writable
      ensures Contents() == if saved then WithPin(old(Contents()), text, name) else old(Contents())
    {
      var pins := Load();
      pins := Retain(pins, text);
      if writable {
        file := Some(pins + [Pin(text, name)]);
      }
      saved := writable;
    }

    method Remove(text: KeyText, writable: bool) returns (saved: bool)
      modifies this
      ensures saved == writable
      ensures Contents() == if saved then WithoutText(old(Contents()), text) else old(Contents())
    {
      var pins := Load();
      pins := Retain(pins, text);
      if writable {
        file := Some(pins);
      }
      saved := writable;
    }
  }
}
