/** The wallet session behind every page: whether the Phantom wallet is connected and with
    which public key. The browser's `window.solana` provider is an oracle here: whether it
    is present (and calls itself Phantom), and what its `connect` and `disconnect` calls
    answer, are parameters. */
module PhantomWallet {
  import opened Wrappers

  /** A public key, as the text the console passes around. */
  type PublicKey = string

  /** `window.solana` at the time of the call. */
  datatype Provider = NoProvider | Injected(isPhantom: bool)

  /** What a `connect` request to the provider settles to. */
  datatype ConnectOutcome = Approved(publicKey: PublicKey) | ConnectRejected

  datatype SessionState = SessionState(connected: bool, publicKey: Option<PublicKey>)

  /** The pair of fields every transition keeps in step. */
  predicate Consistent(s: SessionState) {
    s.connected <==> s.publicKey.Some?
  }

  const Disconnected := SessionState(false, None)

  /** The state after `connect()`: with no provider the install page opens and nothing
      changes; an approved request stores its key; a rejected one is caught and changes nothing. */
  function AfterConnect(s: SessionState, provider: Provider, outcome: ConnectOutcome): SessionState {
    if provider.NoProvider? then s
    else match outcome
      case Approved(key) => SessionState(true, Some(key))
      case ConnectRejected => s
  }

  /** The state after `disconnect()`: only a present provider whose disconnect succeeds
      clears the session. */
  function AfterDisconnect(s: SessionState, provider: Provider, succeeded: bool): SessionState {
    if provider.Injected? && succeeded then Disconnected else s
  }

  /** The state after the silent reconnect on mount (`connect({ onlyIfTrusted: true })`),
      attempted only when the provider calls itself Phantom. */
  function AfterCheckConnection(s: SessionState, provider: Provider, outcome: ConnectOutcome): SessionState {
    if provider.Injected? && provider.isPhantom && outcome.Approved? then SessionState(true, Some(outcome.publicKey))
    else s
  }

  /** The provider's `connect` event. */
  function OnConnectEvent(key: PublicKey): SessionState {
    SessionState(true, Some(key))
  }

  /** The provider's `disconnect` event. */
  function OnDisconnectEvent(): SessionState {
    Disconnected
  }

  /** Every transition keeps `connected` true exactly when a key is held, and every one
      ends either where it started, connected with a key, or disconnected. */
  lemma TransitionsKeepConsistency(s: SessionState, provider: Provider, outcome: ConnectOutcome,
                                   succeeded: bool, key: PublicKey)
    requires Consistent(s)
    ensures Consistent(AfterConnect(s, provider, outcome))
    ensures Consistent(AfterDisconnect(s, provider, succeeded))
    ensures Consistent(AfterCheckConnection(s, provider, outcome))
    ensures Consistent(OnConnectEvent(key)) && Consistent(OnDisconnectEvent())
  {
  }

  /** `connect` changes the state exactly when a provider is present and approves, and then
      the session holds the approved key, whatever it held before. */
  lemma ConnectOutcomes(s: SessionState, provider: Provider, outcome: ConnectOutcome)
    ensures AfterConnect(s, provider, outcome) != s ==> provider.Injected? && outcome.Approved?
    ensures provider.Injected? && outcome.Approved? ==>
      AfterConnect(s, provider, outcome).connected &&
      AfterConnect(s, provider, outcome).publicKey == Some(outcome.publicKey)
  {
  }

  /** A successful disconnect undoes any connect: the session is back to its initial state,
      and disconnecting again changes nothing. */
  lemma DisconnectUndoesConnect(s: SessionState, provider: Provider, outcome: ConnectOutcome)
    requires provider.Injected?
    ensures AfterDisconnect(AfterConnect(s, provider, outcome), provider, true) == Disconnected
    ensures AfterDisconnect(Disconnected, provider, true) == Disconnected
  {
  }

  /** The silent reconnect is the interactive `connect` restricted to a Phantom provider:
      with one it has the same effect, without one it changes nothing. */
  lemma CheckConnectionIsGuardedConnect(s: SessionState, provider: Provider, outcome: ConnectOutcome)
    ensures provider.Injected? && provider.isPhantom ==>
      AfterCheckConnection(s, provider, outcome) == AfterConnect(s, provider, outcome)
    ensures !(provider.Injected? && provider.isPhantom) ==> AfterCheckConnection(s, provider, outcome) == s
  {
  }

  /** The provider's events have the same effect as a successful `connect` and a successful
      `disconnect`. */
  lemma EventsMatchCalls(s: SessionState, key: PublicKey, isPhantom: bool)
    ensures OnConnectEvent(key) == AfterConnect(s, Injected(isPhantom), Approved(key))
    ensures OnDisconnectEvent() == AfterDisconnect(s, Injected(isPhantom), true)
  {
  }

  /** `PhantomWalletProvider`: the two state fields, plus whether the mount effect has
      subscribed to the provider's events. */
  class WalletSession {
    var connected: bool
    var publicKey: Option<PublicKey>
    var subscribed: bool

    function State(): SessionState
      reads this`connected, this`publicKey
    {
      SessionState(connected, publicKey)
    }

    ghost predicate Valid()
      reads this`connected, this`publicKey
    {
      Consistent(State())
    }

    /** `useState(false)` and `useState(null)`. */
    constructor ()
      ensures Valid() && State() == Disconnected && !subscribed
    {
      connected, publicKey := false, None;
      subscribed := false;
    }

    /** The mount effect: subscribe to the provider's events when there is a provider, then
        run the silent reconnect. */
    method Mount(provider: Provider, trusted: ConnectOutcome)
      requires Valid()
      modifies this
      ensures Valid()
      ensures subscribed == (old(subscribed) || provider.Injected?)
      ensures State() == AfterCheckConnection(old(State()), provider, trusted)
    {
      if provider.Injected? {
        subscribed := true;
      }
      CheckConnection(provider, trusted);
    }

    /** `checkConnection`: a failed trusted connect is swallowed. */
    method CheckConnection(provider: Provider, trusted: ConnectOutcome)
      requires Valid()
      modifies this`connected, this`publicKey
      ensures Valid()
      ensures State() == AfterCheckConnection(old(State()), provider, trusted)
    {
      if provider.Injected? && provider.isPhantom {
        match trusted
        case Approved(key) =>
          publicKey := Some(key);
          connected := true;
        case ConnectRejected =>
      }
    }

    /** `connect`; reports whether it opened the wallet's install page instead. */
    method Connect(provider: Provider, outcome: ConnectOutcome) returns (openedInstallPage: bool)
      requires Valid()
      modifies this`connected, this`publicKey
      ensures Valid()
      ensures openedInstallPage <==> provider.NoProvider?
      ensures State() == AfterConnect(old(State()), provider, outcome)
    {
      if provider.NoProvider? {
        openedInstallPage := true;
        return;
      }
      openedInstallPage := false;
      match outcome
      case Approved(key) =>
        publicKey := Some(key);
        connected := true;
      case ConnectRejected =>
    }

    /** `disconnect`; a failure is caught and leaves the session as it was. */
    method Disconnect(provider: Provider, succeeded: bool)
      requires Valid()
      modifies this`connected, this`publicKey
      ensures Valid()
      ensures State() == AfterDisconnect(old(State()), provider, succeeded)
    {
      if provider.Injected? {
        if succeeded {
          publicKey := None;
          connected := false;
        }
      }
    }

    /** The `connect` event callback, registered on mount. */
    method HandleConnectEvent(key: PublicKey)
      requires Valid() && subscribed
      modifies this`connected, this`publicKey
      ensures Valid()
      ensures State() == OnConnectEvent(key)
    {
      publicKey := Some(key);
      connected := true;
    }

    /** The `disconnect` event callback, registered on mount. */
    method HandleDisconnectEvent()
      requires Valid() && subscribed
      modifies this`connected, this`publicKey
      ensures Valid()
      ensures State() == OnDisconnectEvent()
    {
      publicKey := None;
      connected := false;
    }
  }
}
