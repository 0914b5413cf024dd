/** The current workspace, its deferred side effects, and the chat store that keeps
    one session, agent and set of drafts per workspace in shared browser storage. */
module WorkspaceChat {
  import opened Options

  type Drafts = map<string, string>

  /** A stored string together with the object `JSON.parse` reads from it, if any. */
  datatype Stored = Stored(raw: string, parsed: Option<Drafts>)

  type Storage = map<string, Stored>

  datatype Task = Notify | Rehydrate

  /** `lastSeen` records for each subscriber the slug it last read or was told: a subscriber reads
      the slug when it subscribes. */
  datatype State = State(
    slug: Option<string>, wsId: Option<string>, pendingNotify: bool, pendingRehydrate: bool,
    microtasks: seq<Task>, lastSeen: map<nat, Option<string>>,
    storage: Storage, activeSession: Option<string>, selectedAgent: Option<string>, drafts: Drafts)

  const AGENT_KEY := "multica:chat:selectedAgentId"
  const SESSION_KEY := "multica:chat:activeSessionId"
  const DRAFTS_KEY := "multica:chat:drafts"

  /** Storage is divided by slug; no slug and the empty slug share the plain keys. */
  function Space(slug: Option<string>): Option<string> {
    if slug == Some("") then None else slug
  }

  function KeyIn(base: string, space: Option<string>): string {
    match space
    case None => base
    case Some(x) => base + ":" + x
  }

  function WsKey(s: State, base: string): string { KeyIn(base, Space(s.slug)) }

  function GetItem(storage: Storage, key: string): Option<string> {
    if key in storage then Some(storage[key].raw) else None
  }

  function ReadDrafts(storage: Storage, key: string): Drafts {
    if key in storage && storage[key].raw != "" && storage[key].parsed.Some? then storage[key].parsed.value else map[]
  }

  function Prune(drafts: Drafts): Drafts {
    map k | k in drafts && drafts[k] != "" :: drafts[k]
  }

  /** `json` is the nonempty text `JSON.stringify` gives for the pruned drafts. */
  function WriteDrafts(storage: Storage, key: string, drafts: Drafts, json: string): Storage {
    if Prune(drafts) == map[] then storage - {key} else storage[key := Stored(json, Some(Prune(drafts)))]
  }

  datatype Event =
    | SetWorkspace(slug: Option<string>, wsId: Option<string>)
    | RunMicrotask
    | Subscribe(subscriber: nat)
    | Unsubscribe(subscriber: nat)
    | SetActiveSession(id: Option<string>)
    | SetSelectedAgent(agent: string)
    | SetInputDraft(session: string, draft: string, json: string)
    | ClearInputDraft(session: string, json: string)

  predicate IsAction(e: Event) {
    e.SetActiveSession? || e.SetSelectedAgent? || e.SetInputDraft? || e.ClearInputDraft?
  }

  predicate WellFormed(e: Event) {
    (e.SetInputDraft? ==> e.json != "") && (e.ClearInputDraft? ==> e.json != "")
  }

  /** A new page: no workspace yet, and the chat store reads the keys without one. */
  function Initial(storage: Storage): State {
    State(None, None, false, false, [], map[], storage,
          GetItem(storage, SESSION_KEY), GetItem(storage, AGENT_KEY), ReadDrafts(storage, DRAFTS_KEY))
  }

  function Switched(s: State, slug: Option<string>, wsId: Option<string>): State {
    if s.slug == slug then s.(wsId := wsId)
    else
      s.(slug := slug, wsId := wsId, pendingNotify := true, pendingRehydrate := true,
         microtasks := s.microtasks + (if s.pendingNotify then [] else [Notify])
                                    + (if s.pendingRehydrate then [] else [Rehydrate]))
  }

  function Notified(s: State): State {
    s.(pendingNotify := false, lastSeen := map i | i in s.lastSeen :: s.slug)
  }

  function Rehydrated(s: State): State {
    s.(pendingRehydrate := false,
       activeSession := GetItem(s.storage, WsKey(s, SESSION_KEY)),
       selectedAgent := GetItem(s.storage, WsKey(s, AGENT_KEY)),
       drafts := ReadDrafts(s.storage, WsKey(s, DRAFTS_KEY)))
  }

  function Step(s: State, e: Event): State {
    match e
    case SetWorkspace(slug, wsId) => Switched(s, slug, wsId)
    case RunMicrotask =>
      if |s.microtasks| == 0 then s
      else
        var rest := s.(microtasks := s.microtasks[1..]);
        if s.microtasks[0] == Notify then Notified(rest) else Rehydrated(rest)
    case Subscribe(i) => s.(lastSeen := s.lastSeen[i := s.slug])
    case Unsubscribe(i) => s.(lastSeen := s.lastSeen - {i})
    case SetActiveSession(id) =>
      var key := WsKey(s, SESSION_KEY);
      s.(storage := if id.Some? && id.value != "" then s.storage[key := Stored(id.value, None)] else s.storage - {key},
         activeSession := id)
    case SetSelectedAgent(agent) =>
      s.(storage := s.storage[WsKey(s, AGENT_KEY) := Stored(agent, None)], selectedAgent := Some(agent))
    case SetInputDraft(session, draft, json) =>
      var next := s.drafts[session := draft];
      s.(storage := WriteDrafts(s.storage, WsKey(s, DRAFTS_KEY), next, json), drafts := next)
    case ClearInputDraft(session, json) =>
      if session !in s.drafts then s
      else
        var next := s.drafts - {session};
        s.(storage := WriteDrafts(s.storage, WsKey(s, DRAFTS_KEY), next, json), drafts := next)
  }

  /* ---- The module variables and the store ---- */

  class ChatWorkspace {
    var slug: Option<string>
    var wsId: Option<string>
    var pendingNotify: bool
    var pendingRehydrate: bool
    var microtasks: seq<Task>
    var lastSeen: map<nat, Option<string>>
    var storage: Storage
    var activeSession: Option<string>
    var selectedAgent: Option<string>
    var drafts: Drafts

    function Now(): State
      reads this
    {
      State(slug, wsId, pendingNotify, pendingRehydrate, microtasks, lastSeen, storage, activeSession, selectedAgent, drafts)
    }

    function Key(base: string): string
      reads this
    {
      if slug.Some? && slug.value != "" then base + ":" + slug.value else base
    }

    constructor (storage: Storage)
      ensures Now() == Initial(storage)
    {
      slug, wsId := None, None;
      pendingNotify, pendingRehydrate := false, false;
      microtasks, lastSeen := [], map[];
      this.storage := storage;
      activeSession := GetItem(storage, SESSION_KEY);
      selectedAgent := GetItem(storage, AGENT_KEY);
      drafts := ReadDrafts(storage, DRAFTS_KEY);
    }

    method SetCurrentWorkspace(slug': Option<string>, wsId': Option<string>)
      modifies this
      ensures Now() == Step(old(Now()), SetWorkspace(slug', wsId'))
    {
      if slug == slug' {
        wsId := wsId';
        return;
      }
      slug, wsId := slug', wsId';
      if !pendingNotify {
        pendingNotify := true;
        microtasks := microtasks + [Notify];
      }
      if !pendingRehydrate {
        pendingRehydrate := true;
        microtasks := microtasks + [Rehydrate];
      }
    }

    method RunNextMicrotask()
      modifies this
      ensures Now() == Step(old(Now()), RunMicrotask)
    {
      if |microtasks| == 0 { return; }
      var task := microtasks[0];
      microtasks := microtasks[1..];
      if task == Notify {
        pendingNotify := false;
        lastSeen := map i | i in lastSeen :: slug;
      } else {
        pendingRehydrate := false;
        activeSession := GetItem(storage, Key(SESSION_KEY));
        selectedAgent := GetItem(storage, Key(AGENT_KEY));
        drafts := ReadDrafts(storage, Key(DRAFTS_KEY));
      }
    }

    method SubscribeToSlug(subscriber: nat)
      modifies this`lastSeen
      ensures Now() == Step(old(Now()), Subscribe(subscriber))
    {
      lastSeen := lastSeen[subscriber := slug];
    }

    method UnsubscribeFromSlug(subscriber: nat)
      modifies this`lastSeen
      ensures Now() == Step(old(Now()), Unsubscribe(subscriber))
    {
      lastSeen := lastSeen - {subscriber};
    }

    method SetActiveSessionTo(id: Option<string>)
      modifies this
      ensures Now() == Step(old(Now()), SetActiveSession(id))
    {
      if id.Some? && id.value != "" {
        storage := storage[Key(SESSION_KEY) := Stored(id.value, None)];
      } else {
        storage := storage - {Key(SESSION_KEY)};
      }
      activeSession := id;
    }

    method SetSelectedAgentTo(agent: string)
      modifies this
      ensures Now() == Step(old(Now()), SetSelectedAgent(agent))
    {
      storage := storage[Key(AGENT_KEY) := Stored(agent, None)];
      selectedAgent := Some(agent);
    }

    /** Keeps the nonempty drafts; an empty result removes the key. */
    method SaveDrafts(key: string, next: Drafts, json: string)
      modifies this`storage
      ensures storage == WriteDrafts(old(storage), key, next, json)
    {
      var pruned: Drafts := map[];
      var left := next.Keys;
      while left != {}
        invariant left <= next.Keys
        invariant pruned == map k | k in next && k !in left && next[k] != "" :: next[k]
        decreases left
      {
        var k :| k in left;
        if next[k] != "" { pruned := pruned[k := next[k]]; }
        left := left - {k};
      }
      assert pruned == Prune(next);
      if |pruned| == 0 {
        storage := storage - {key};
      } else {
        storage := storage[key := Stored(json, Some(pruned))];
      }
    }

    method SetInputDraftTo(session: string, draft: string, json: string)
      modifies this
      ensures Now() == Step(old(Now()), SetInputDraft(session, draft, json))
    {
      var next := drafts[session := draft];
      SaveDrafts(Key(DRAFTS_KEY), next, json);
      drafts := next;
    }

    method ClearInputDraftOf(session: string, json: string)
      modifies this
      ensures Now() == Step(old(Now()), ClearInputDraft(session, json))
    {
      if session !in drafts { return; }
      var next := drafts - {session};
      SaveDrafts(Key(DRAFTS_KEY), next, json);
      drafts := next;
    }
  }

  /* ---- Keys never collide ---- */

  predicate IsBase(b: string) { b == AGENT_KEY || b == SESSION_KEY || b == DRAFTS_KEY }

  /** The character behind the common prefix tells the three kinds of key apart. */
  lemma BaseMark(b: string, space: Option<string>)
    requires IsBase(b)
    ensures |KeyIn(b, space)| > 13
    ensures KeyIn(b, space)[13] == if b == AGENT_KEY then 's' else if b == SESSION_KEY then 'a' else 'd'
  {
    assert KeyIn(b, space)[13] == b[13];
  }

  /** Different kinds or different workspaces, different storage keys. */
  lemma KeysAreDistinct(b: string, x: Option<string>, b': string, x': Option<string>)
    requires IsBase(b) && IsBase(b') && KeyIn(b, x) == KeyIn(b', x')
    ensures b == b' && x == x'
  {
    BaseMark(b, x);
    BaseMark(b', x');
    assert b == b';
    var k := KeyIn(b, x);
    if x.Some? && x'.Some? {
      assert x.value == k[|b| + 1..] == x'.value;
    }
  }

  /* ---- Memory and storage ---- */

  /** What a workspace's chat consists of: a session (empty means none), an agent, the nonempty drafts. */
  datatype Chat = Chat(session: Option<string>, agent: Option<string>, drafts: Drafts)

  function Truthy(o: Option<string>): Option<string> { if o == Some("") then None else o }

  function StoredChat(storage: Storage, space: Option<string>): Chat {
    Chat(Truthy(GetItem(storage, KeyIn(SESSION_KEY, space))), GetItem(storage, KeyIn(AGENT_KEY, space)),
         Prune(ReadDrafts(storage, KeyIn(DRAFTS_KEY, space))))
  }

  function MemoryChat(s: State): Chat { Chat(Truthy(s.activeSession), s.selectedAgent, Prune(s.drafts)) }

  /** Unless a rehydration is pending, the chat in memory is the current workspace's stored chat. */
  ghost predicate Synced(s: State) {
    !s.pendingRehydrate ==> MemoryChat(s) == StoredChat(s.storage, Space(s.slug))
  }

  /** The microtask queue holds each side effect at most once, exactly when it is pending. */
  ghost predicate Coalesced(s: State) {
    && (s.pendingNotify <==> Notify in s.microtasks)
    && (s.pendingRehydrate <==> Rehydrate in s.microtasks)
    && |s.microtasks| <= 2 && (|s.microtasks| == 2 ==> s.microtasks[0] != s.microtasks[1])
  }

  /** Unless a notification is pending, every subscriber has last seen the current slug. */
  ghost predicate Informed(s: State) {
    !s.pendingNotify ==> forall i :: i in s.lastSeen ==> s.lastSeen[i] == s.slug
  }

  ghost predicate Good(s: State) { Synced(s) && Coalesced(s) && Informed(s) }

  lemma PruneTwice(d: Drafts)
    ensures Prune(Prune(d)) == Prune(d)
  {
  }

  /** After writing drafts, reading them gives the pruned drafts. */
  lemma WriteThenRead(storage: Storage, key: string, drafts: Drafts, json: string)
    requires json != ""
    ensures ReadDrafts(WriteDrafts(storage, key, drafts, json), key) == Prune(drafts)
  {
  }

  /** What reading gives after writing, draft by draft: every nonempty draft with its text, and nothing
      else.  The key itself is there exactly when some draft is nonempty. */
  lemma EachDraftIsStored(storage: Storage, key: string, drafts: Drafts, json: string, k: string)
    requires json != ""
    ensures var now := WriteDrafts(storage, key, drafts, json);
            && (k in ReadDrafts(now, key) <==> k in drafts && drafts[k] != "")
            && (k in ReadDrafts(now, key) ==> ReadDrafts(now, key)[k] == drafts[k])
            && (key in now <==> exists j :: j in drafts && drafts[j] != "")
            && (key in now ==> now[key].raw == json)
  {
    if Prune(drafts) == map[] {
      forall j | j in drafts ensures drafts[j] == "" { assert j !in Prune(drafts); }
    } else {
      var j :| j in Prune(drafts);
      assert j in drafts && drafts[j] != "";
    }
  }

  /** What `StoredChat` says, key by key. */
  lemma StoredChatMeans(storage: Storage, space: Option<string>, x: string, k: string)
    ensures var c := StoredChat(storage, space);
            var session, agent, drafts := KeyIn(SESSION_KEY, space), KeyIn(AGENT_KEY, space), KeyIn(DRAFTS_KEY, space);
            && (c.session == Some(x) <==> x != "" && session in storage && storage[session].raw == x)
            && (c.agent == Some(x) <==> agent in storage && storage[agent].raw == x)
            && (k in c.drafts && c.drafts[k] == x
                <==> x != "" && drafts in storage && storage[drafts].raw != "" && storage[drafts].parsed.Some?
                     && k in storage[drafts].parsed.value && storage[drafts].parsed.value[k] == x)
  {
  }

  /** What `MemoryChat` says. */
  lemma MemoryChatMeans(s: State, x: string, k: string)
    ensures var c := MemoryChat(s);
            && (c.session == Some(x) <==> x != "" && s.activeSession == Some(x))
            && (c.agent == Some(x) <==> s.selectedAgent == Some(x))
            && (k in c.drafts && c.drafts[k] == x <==> x != "" && k in s.drafts && s.drafts[k] == x)
  {
  }

  lemma KeyFormat(slug: string)
    ensures KeyIn(SESSION_KEY, Space(Some(slug))) == if slug == "" then "multica:chat:activeSessionId" else "multica:chat:activeSessionId:" + slug
    ensures KeyIn(AGENT_KEY, Space(Some(slug))) == if slug == "" then "multica:chat:selectedAgentId" else "multica:chat:selectedAgentId:" + slug
    ensures KeyIn(DRAFTS_KEY, Space(Some(slug))) == if slug == "" then "multica:chat:drafts" else "multica:chat:drafts:" + slug
    ensures Space(None) == None && forall base :: KeyIn(base, None) == base
  {
  }

  /** An action writes only the current workspace's keys and leaves memory and storage equal
      when they were. */
  lemma ActionWritesThrough(s: State, e: Event)
    requires IsAction(e) && WellFormed(e)
    ensures Step(s, e).slug == s.slug && Step(s, e).pendingRehydrate == s.pendingRehydrate
    ensures Synced(s) ==> Synced(Step(s, e))
  {
    DistinctKeysOf(Space(s.slug));
    match e
    case SetInputDraft(session, draft, json) =>
      WriteThenRead(s.storage, WsKey(s, DRAFTS_KEY), s.drafts[session := draft], json);
      PruneTwice(s.drafts[session := draft]);
    case ClearInputDraft(session, json) =>
      WriteThenRead(s.storage, WsKey(s, DRAFTS_KEY), s.drafts - {session}, json);
      PruneTwice(s.drafts - {session});
    case _ =>
  }

  lemma DistinctKeysOf(space: Option<string>)
    ensures KeyIn(SESSION_KEY, space) != KeyIn(AGENT_KEY, space)
    ensures KeyIn(SESSION_KEY, space) != KeyIn(DRAFTS_KEY, space)
    ensures KeyIn(AGENT_KEY, space) != KeyIn(DRAFTS_KEY, space)
  {
    BaseMark(SESSION_KEY, space);
    BaseMark(AGENT_KEY, space);
    BaseMark(DRAFTS_KEY, space);
  }

  ghost predicate KeyOfSpace(key: string, space: Option<string>) {
    key == KeyIn(SESSION_KEY, space) || key == KeyIn(AGENT_KEY, space) || key == KeyIn(DRAFTS_KEY, space)
  }

  lemma DraftsWriteOneKey(storage: Storage, written: string, drafts: Drafts, json: string, key: string)
    requires key != written
    ensures key in WriteDrafts(storage, written, drafts, json) <==> key in storage
    ensures key in storage ==> WriteDrafts(storage, written, drafts, json)[key] == storage[key]
  {
  }

  /** No event touches a storage key of another workspace, or any foreign key. */
  lemma {:induction false} OtherKeysUntouched(s: State, e: Event, key: string)
    requires !KeyOfSpace(key, Space(s.slug))
    ensures key in Step(s, e).storage <==> key in s.storage
    ensures key in s.storage ==> Step(s, e).storage[key] == s.storage[key]
  {
    match e
    case SetInputDraft(session, draft, json) =>
      DraftsWriteOneKey(s.storage, WsKey(s, DRAFTS_KEY), s.drafts[session := draft], json, key);
    case ClearInputDraft(session, json) =>
      DraftsWriteOneKey(s.storage, WsKey(s, DRAFTS_KEY), s.drafts - {session}, json, key);
    case _ =>
  }

  lemma OtherChatUntouched(s: State, e: Event, space: Option<string>)
    requires space != Space(s.slug)
    ensures StoredChat(Step(s, e).storage, space) == StoredChat(s.storage, space)
  {
    forall b | IsBase(b) ensures !KeyOfSpace(KeyIn(b, space), Space(s.slug)) {
      OtherSpaceKey(b, space, Space(s.slug));
    }
    OtherKeysUntouched(s, e, KeyIn(SESSION_KEY, space));
    OtherKeysUntouched(s, e, KeyIn(AGENT_KEY, space));
    OtherKeysUntouched(s, e, KeyIn(DRAFTS_KEY, space));
  }

  lemma OtherSpaceKey(b: string, space: Option<string>, other: Option<string>)
    requires IsBase(b) && space != other
    ensures !KeyOfSpace(KeyIn(b, space), other)
  {
    if KeyIn(b, space) == KeyIn(SESSION_KEY, other) { KeysAreDistinct(b, space, SESSION_KEY, other); }
    if KeyIn(b, space) == KeyIn(AGENT_KEY, other) { KeysAreDistinct(b, space, AGENT_KEY, other); }
    if KeyIn(b, space) == KeyIn(DRAFTS_KEY, other) { KeysAreDistinct(b, space, DRAFTS_KEY, other); }
  }

  /** An action shows in memory at once, whatever is pending. */
  lemma ActionShowsAtOnce(s: State, e: Event, k: string)
    requires IsAction(e)
    ensures Step(s, e).activeSession == if e.SetActiveSession? then e.id else s.activeSession
    ensures Step(s, e).selectedAgent == if e.SetSelectedAgent? then Some(e.agent) else s.selectedAgent
    ensures k in Step(s, e).drafts
       <==> (e.SetInputDraft? && e.session == k) || (k in s.drafts && !(e.ClearInputDraft? && e.session == k))
    ensures k in Step(s, e).drafts ==>
              Step(s, e).drafts[k] == if e.SetInputDraft? && e.session == k then e.draft else s.drafts[k]
  {
  }

  lemma InitialIsGood(storage: Storage)
    ensures Good(Initial(storage))
  {
  }

  /* ---- Every run ---- */

  lemma GoodStep(s: State, e: Event)
    requires Good(s) && WellFormed(e)
    ensures Good(Step(s, e))
  {
    if IsAction(e) {
      ActionWritesThrough(s, e);
    } else {
      QueueStep(s, e);
    }
  }

  lemma QueueStep(s: State, e: Event)
    requires Good(s) && !IsAction(e)
    ensures Good(Step(s, e))
  {
    match e
    case RunMicrotask => DrainStep(s);
    case SetWorkspace(slug, wsId) => SwitchStep(s, slug, wsId);
    case _ =>
  }

  /** The five queues there can be, and what each says about the pending flags. */
  lemma QueueShape(s: State)
    requires Coalesced(s)
    ensures || (s.microtasks == [] && !s.pendingNotify && !s.pendingRehydrate)
            || (s.microtasks == [Notify] && s.pendingNotify && !s.pendingRehydrate)
            || (s.microtasks == [Rehydrate] && !s.pendingNotify && s.pendingRehydrate)
            || (s.microtasks in [[Notify, Rehydrate], [Rehydrate, Notify]] && s.pendingNotify && s.pendingRehydrate)
  {
    var q := s.microtasks;
    if |q| == 0 {
    } else if |q| == 1 {
      assert q[0] in q && forall t :: t in q ==> t == q[0];
      match q[0]
      case Notify => assert q == [Notify];
      case Rehydrate => assert q == [Rehydrate];
    } else {
      assert q == [q[0], q[1]] && q[0] in q && q[1] in q;
    }
  }

  /** A switch queues what is not pending: at most one task of each kind. */
  lemma SwitchCoalesces(s: State, slug: Option<string>, wsId: Option<string>)
    requires Coalesced(s)
    ensures Coalesced(Switched(s, slug, wsId))
  {
    QueueShape(s);
    if s.slug != slug {
      var q := Switched(s, slug, wsId).microtasks;
      if s.microtasks == [] {
        assert q == [Notify, Rehydrate];
      } else if s.microtasks == [Notify] {
        assert q == [Notify, Rehydrate];
      } else if s.microtasks == [Rehydrate] {
        assert q == [Rehydrate, Notify];
      } else {
        assert q == s.microtasks;
      }
    }
  }

  lemma SwitchStep(s: State, slug: Option<string>, wsId: Option<string>)
    requires Good(s)
    ensures Good(Switched(s, slug, wsId))
  {
    SwitchCoalesces(s, slug, wsId);
  }

  lemma DrainStep(s: State)
    requires Good(s)
    ensures Good(Step(s, RunMicrotask))
  {
    var q := s.microtasks;
    if |q| == 1 { assert q == [q[0]] && q[1..] == []; }
    if |q| == 2 { assert q == [q[0], q[1]] && q[1..] == [q[1]]; }
  }

  ghost function Run(s: State, es: seq<Event>): State {
    if |es| == 0 then s else Step(Run(s, es[..|es| - 1]), es[|es| - 1])
  }

  ghost predicate AllWellFormed(es: seq<Event>) { forall e :: e in es ==> WellFormed(e) }

  /** In every run, whatever its order: unless a side effect is pending, memory is the current
      workspace's stored chat and every subscriber knows the current slug. */
  lemma {:induction false} GoodRun(s: State, es: seq<Event>)
    requires Good(s) && AllWellFormed(es)
    ensures Good(Run(s, es))
  {
    if |es| == 0 {
    } else {
      GoodRun(s, es[..|es| - 1]);
      GoodStep(Run(s, es[..|es| - 1]), es[|es| - 1]);
    }
  }

  /** From a new page, over every run: once the microtasks have drained, memory is the current
      workspace's stored chat and every subscriber knows the current slug. */
  lemma DrainedIsSettled(storage: Storage, es: seq<Event>)
    requires AllWellFormed(es) && |Run(Initial(storage), es).microtasks| == 0
    ensures var s := Run(Initial(storage), es);
            MemoryChat(s) == StoredChat(s.storage, Space(s.slug)) && forall i :: i in s.lastSeen ==> s.lastSeen[i] == s.slug
  {
    InitialIsGood(storage);
    GoodRun(Initial(storage), es);
  }

  /* ---- What a run is told ---- */

  /** The workspace named by the last switch. */
  ghost function LastSet(es: seq<Event>): (Option<string>, Option<string>) {
    if |es| == 0 then (None, None)
    else if es[|es| - 1].SetWorkspace? then (es[|es| - 1].slug, es[|es| - 1].wsId)
    else LastSet(es[..|es| - 1])
  }

  ghost predicate Subscribed(es: seq<Event>, i: nat) {
    |es| > 0
    && match es[|es| - 1]
       case Subscribe(j) => j == i || Subscribed(es[..|es| - 1], i)
       case Unsubscribe(j) => j != i && Subscribed(es[..|es| - 1], i)
       case _ => Subscribed(es[..|es| - 1], i)
  }

  lemma CurrentStep(s: State, e: Event)
    ensures (Step(s, e).slug, Step(s, e).wsId) == if e.SetWorkspace? then (e.slug, e.wsId) else (s.slug, s.wsId)
  {
  }

  lemma SubscribersStep(s: State, e: Event, i: nat)
    ensures i in Step(s, e).lastSeen
       <==> (e.Subscribe? && e.subscriber == i) || (i in s.lastSeen && !(e.Unsubscribe? && e.subscriber == i))
  {
  }

  /** In every run from a new page the current workspace is the one last set, and the subscribers are
      those that have subscribed and not unsubscribed since. */
  lemma {:induction false} CurrentIsLastSet(storage: Storage, es: seq<Event>)
    ensures var s := Run(Initial(storage), es);
            (s.slug, s.wsId) == LastSet(es) && forall i :: i in s.lastSeen <==> Subscribed(es, i)
  {
    if |es| == 0 {
    } else {
      var s, e := Run(Initial(storage), es[..|es| - 1]), es[|es| - 1];
      CurrentIsLastSet(storage, es[..|es| - 1]);
      CurrentStep(s, e);
      forall i ensures i in Step(s, e).lastSeen <==> Subscribed(es, i) { SubscribersStep(s, e, i); }
    }
  }

  /** Two microtasks empty the queue; then memory is the current workspace's stored chat and every
      subscriber has been told its slug. */
  lemma DrainsInTwo(s: State)
    requires Good(s)
    ensures var s' := Step(Step(s, RunMicrotask), RunMicrotask);
            && s'.microtasks == [] && s'.slug == s.slug && s'.storage == s.storage
            && MemoryChat(s') == StoredChat(s.storage, Space(s.slug))
            && forall i :: i in s'.lastSeen ==> s'.lastSeen[i] == s.slug
  {
    DrainStep(s);
    DrainStep(Step(s, RunMicrotask));
    QueueShape(s);
  }

  /* ---- What returns after switching away and back ---- */

  ghost predicate Edits(e: Event, session: string) {
    (e.SetInputDraft? || e.ClearInputDraft?) && e.session == session
  }

  /** While the workspace is current, no event of the run edits the draft of that session. */
  ghost predicate DraftLeftAlone(s: State, es: seq<Event>, space: Option<string>, session: string) {
    |es| == 0
    || (DraftLeftAlone(s, es[..|es| - 1], space, session)
        && (Edits(es[|es| - 1], session) ==> Space(Run(s, es[..|es| - 1]).slug) != space))
  }

  ghost predicate HasDraft(storage: Storage, space: Option<string>, session: string, text: string) {
    var c := StoredChat(storage, space);
    session in c.drafts && c.drafts[session] == text
  }

  lemma TypedDraftIsStored(s: State, session: string, text: string, json: string)
    requires json != "" && text != ""
    ensures HasDraft(Step(s, SetInputDraft(session, text, json)).storage, Space(s.slug), session, text)
  {
    DistinctKeysOf(Space(s.slug));
    EachDraftIsStored(s.storage, WsKey(s, DRAFTS_KEY), s.drafts[session := text], json, session);
  }

  lemma DraftStays(s: State, e: Event, space: Option<string>, session: string, text: string)
    requires WellFormed(e) && StoresAsMeant(s, e) && (Edits(e, session) ==> Space(s.slug) != space)
    requires HasDraft(s.storage, space, session, text)
    ensures HasDraft(Step(s, e).storage, space, session, text)
  {
    IsolatedStep(s, e, space);
    StoredChatMeans(s.storage, space, text, session);
  }

  lemma {:induction false} DraftStaysOverRun(s: State, es: seq<Event>, space: Option<string>, session: string, text: string)
    requires AllWellFormed(es) && Undisturbed(s, es) && DraftLeftAlone(s, es, space, session)
    requires HasDraft(s.storage, space, session, text)
    ensures HasDraft(Run(s, es).storage, space, session, text)
  {
    if |es| == 0 {
    } else {
      DraftStaysOverRun(s, es[..|es| - 1], space, session, text);
      DraftStays(Run(s, es[..|es| - 1]), es[|es| - 1], space, session, text);
    }
  }

  /** A typed draft is never lost: after any undisturbed run in which that draft is not edited in its
      workspace, whenever the workspace is current again and rehydrated, the draft is in memory. */
  lemma TypedDraftReturns(s: State, session: string, text: string, json: string, es: seq<Event>)
    requires Good(s) && json != "" && text != "" && AllWellFormed(es)
    requires var s' := Step(s, SetInputDraft(session, text, json));
             Undisturbed(s', es) && DraftLeftAlone(s', es, Space(s.slug), session)
    ensures var s'' := Run(Step(s, SetInputDraft(session, text, json)), es);
            && HasDraft(s''.storage, Space(s.slug), session, text)
            && (Space(s''.slug) == Space(s.slug) && !s''.pendingRehydrate ==> session in s''.drafts && s''.drafts[session] == text)
  {
    var s' := Step(s, SetInputDraft(session, text, json));
    TypedDraftIsStored(s, session, text, json);
    DraftStaysOverRun(s', es, Space(s.slug), session, text);
    GoodStep(s, SetInputDraft(session, text, json));
    GoodRun(s', es);
    MemoryChatMeans(Run(s', es), text, session);
  }

  /** The session, respectively agent, chosen in a workspace: no event of the run chooses another there. */
  ghost predicate ChoiceLeftAlone(s: State, es: seq<Event>, space: Option<string>, agent: bool) {
    |es| == 0
    || (ChoiceLeftAlone(s, es[..|es| - 1], space, agent)
        && ((if agent then es[|es| - 1].SetSelectedAgent? else es[|es| - 1].SetActiveSession?)
            ==> Space(Run(s, es[..|es| - 1]).slug) != space))
  }

  /** An event writes the session key only by choosing a session, the agent key only by choosing an agent. */
  lemma ChoiceKeysStay(s: State, e: Event)
    ensures var key := WsKey(s, SESSION_KEY);
            !e.SetActiveSession? ==> GetItem(Step(s, e).storage, key) == GetItem(s.storage, key)
    ensures var key := WsKey(s, AGENT_KEY);
            !e.SetSelectedAgent? ==> GetItem(Step(s, e).storage, key) == GetItem(s.storage, key)
  {
    DistinctKeysOf(Space(s.slug));
    match e
    case SetInputDraft(session, draft, json) => DraftsLeaveChoices(s, s.drafts[session := draft], json);
    case ClearInputDraft(session, json) => DraftsLeaveChoices(s, s.drafts - {session}, json);
    case _ =>
  }

  lemma DraftsLeaveChoices(s: State, drafts: Drafts, json: string)
    ensures var now := WriteDrafts(s.storage, WsKey(s, DRAFTS_KEY), drafts, json);
            && GetItem(now, WsKey(s, SESSION_KEY)) == GetItem(s.storage, WsKey(s, SESSION_KEY))
            && GetItem(now, WsKey(s, AGENT_KEY)) == GetItem(s.storage, WsKey(s, AGENT_KEY))
  {
    DistinctKeysOf(Space(s.slug));
    DraftsWriteOneKey(s.storage, WsKey(s, DRAFTS_KEY), drafts, json, WsKey(s, SESSION_KEY));
    DraftsWriteOneKey(s.storage, WsKey(s, DRAFTS_KEY), drafts, json, WsKey(s, AGENT_KEY));
  }

  lemma ChoiceStays(s: State, e: Event, space: Option<string>)
    ensures !e.SetActiveSession? || Space(s.slug) != space ==> StoredChat(Step(s, e).storage, space).session == StoredChat(s.storage, space).session
    ensures !e.SetSelectedAgent? || Space(s.slug) != space ==> StoredChat(Step(s, e).storage, space).agent == StoredChat(s.storage, space).agent
  {
    if Space(s.slug) != space {
      OtherChatUntouched(s, e, space);
    } else {
      ChoiceKeysStay(s, e);
    }
  }

  lemma {:induction false} ChoiceStaysOverRun(s: State, es: seq<Event>, space: Option<string>, agent: bool)
    requires AllWellFormed(es) && ChoiceLeftAlone(s, es, space, agent)
    ensures !agent ==> StoredChat(Run(s, es).storage, space).session == StoredChat(s.storage, space).session
    ensures agent ==> StoredChat(Run(s, es).storage, space).agent == StoredChat(s.storage, space).agent
  {
    if |es| == 0 {
    } else {
      ChoiceStaysOverRun(s, es[..|es| - 1], space, agent);
      ChoiceStays(Run(s, es[..|es| - 1]), es[|es| - 1], space);
    }
  }

  /** A chosen session is active again, in every run, whenever its workspace is current and rehydrated. */
  lemma SessionReturns(s: State, id: string, es: seq<Event>)
    requires Good(s) && id != "" && AllWellFormed(es)
    requires ChoiceLeftAlone(Step(s, SetActiveSession(Some(id))), es, Space(s.slug), false)
    ensures var s'' := Run(Step(s, SetActiveSession(Some(id))), es);
            Space(s''.slug) == Space(s.slug) && !s''.pendingRehydrate ==> s''.activeSession == Some(id)
  {
    var s' := Step(s, SetActiveSession(Some(id)));
    SessionStored(s, Some(id));
    GoodStep(s, SetActiveSession(Some(id)));
    GoodRun(s', es);
    ChoiceStaysOverRun(s', es, Space(s.slug), false);
    MemoryChatMeans(Run(s', es), id, "");
  }

  /** The same for a chosen agent. */
  lemma AgentReturns(s: State, agent: string, es: seq<Event>)
    requires Good(s) && AllWellFormed(es)
    requires ChoiceLeftAlone(Step(s, SetSelectedAgent(agent)), es, Space(s.slug), true)
    ensures var s'' := Run(Step(s, SetSelectedAgent(agent)), es);
            Space(s''.slug) == Space(s.slug) && !s''.pendingRehydrate ==> s''.selectedAgent == Some(agent)
  {
    var s' := Step(s, SetSelectedAgent(agent));
    AgentStored(s, agent);
    GoodStep(s, SetSelectedAgent(agent));
    GoodRun(s', es);
    ChoiceStaysOverRun(s', es, Space(s.slug), true);
    MemoryChatMeans(Run(s', es), agent, "");
  }

  /* ---- Isolation ---- */

  /** What an action does to the chat of the workspace it is meant for. */
  function ActOn(c: Chat, e: Event): Chat {
    match e
    case SetActiveSession(id) => c.(session := Truthy(id))
    case SetSelectedAgent(agent) => c.(agent := Some(agent))
    case SetInputDraft(session, draft, _) => c.(drafts := Prune(c.drafts[session := draft]))
    case ClearInputDraft(session, _) => c.(drafts := c.drafts - {session})
    case _ => c
  }

  /** Memory and storage agree on the drafts of all sessions but one. */
  ghost predicate OtherDraftsAgree(s: State, session: string) {
    Prune(s.drafts) - {session} == StoredChat(s.storage, Space(s.slug)).drafts - {session}
  }

  /** What an action needs of the state it meets.  Sessions and agents are stored right at any moment;
      drafts are written as a whole. */
  ghost predicate StoresAsMeant(s: State, e: Event) {
    match e
    case SetInputDraft(session, _, _) => OtherDraftsAgree(s, session)
    case ClearInputDraft(session, _) =>
      if session in s.drafts then OtherDraftsAgree(s, session)
      else session !in StoredChat(s.storage, Space(s.slug)).drafts
    case _ => true
  }

  /** An action does to the current workspace's stored chat what it says exactly when memory and storage
      agree on the drafts it does not name. */
  lemma ActionAsMeantIff(s: State, e: Event)
    requires WellFormed(e)
    ensures StoredChat(Step(s, e).storage, Space(s.slug)) == ActOn(StoredChat(s.storage, Space(s.slug)), e) <==> StoresAsMeant(s, e)
  {
    match e
    case SetInputDraft(session, draft, json) => DraftIsolatedIff(s, session, draft, json);
    case ClearInputDraft(session, json) => ClearIsolatedIff(s, session, json);
    case SetActiveSession(id) => SessionStored(s, id);
    case SetSelectedAgent(agent) => AgentStored(s, agent);
    case _ => assert Step(s, e).storage == s.storage;
  }

  lemma SessionStored(s: State, id: Option<string>)
    ensures StoredChat(Step(s, SetActiveSession(id)).storage, Space(s.slug))
         == ActOn(StoredChat(s.storage, Space(s.slug)), SetActiveSession(id))
  {
    DistinctKeysOf(Space(s.slug));
  }

  lemma AgentStored(s: State, agent: string)
    ensures StoredChat(Step(s, SetSelectedAgent(agent)).storage, Space(s.slug))
         == ActOn(StoredChat(s.storage, Space(s.slug)), SetSelectedAgent(agent))
  {
    DistinctKeysOf(Space(s.slug));
  }

  /** Outside the window between a switch and its rehydration every action is stored as meant. */
  lemma OutsideTheWindow(s: State, e: Event)
    requires Synced(s) && !s.pendingRehydrate
    ensures StoresAsMeant(s, e)
  {
    match e
    case ClearInputDraft(session, _) =>
      assert session !in s.drafts ==> session !in Prune(s.drafts);
    case _ =>
  }

  /** The private history of one workspace: only the actions made while it was current. */
  ghost function PrivateRun(c: Chat, s: State, es: seq<Event>, space: Option<string>): Chat {
    if |es| == 0 then c
    else
      var before := PrivateRun(c, s, es[..|es| - 1], space);
      if Space(Run(s, es[..|es| - 1]).slug) == space then ActOn(before, es[|es| - 1]) else before
  }

  /** Every action meets a state in which it is stored as meant. */
  ghost predicate Undisturbed(s: State, es: seq<Event>) {
    |es| == 0 || (Undisturbed(s, es[..|es| - 1]) && StoresAsMeant(Run(s, es[..|es| - 1]), es[|es| - 1]))
  }

  /** In particular when no draft is edited between a workspace switch and its rehydration. */
  ghost predicate NoDraftInWindow(s: State, es: seq<Event>) {
    |es| == 0
    || (NoDraftInWindow(s, es[..|es| - 1])
        && (es[|es| - 1].SetInputDraft? || es[|es| - 1].ClearInputDraft? ==> !Run(s, es[..|es| - 1]).pendingRehydrate))
  }

  lemma {:induction false} QuietWindowIsUndisturbed(s: State, es: seq<Event>)
    requires Good(s) && AllWellFormed(es) && NoDraftInWindow(s, es)
    ensures Undisturbed(s, es)
  {
    if |es| == 0 {
    } else {
      QuietWindowIsUndisturbed(s, es[..|es| - 1]);
      GoodRun(s, es[..|es| - 1]);
      var e := es[|es| - 1];
      if e.SetInputDraft? || e.ClearInputDraft? { OutsideTheWindow(Run(s, es[..|es| - 1]), e); }
    }
  }

  lemma IsolatedStep(s: State, e: Event, space: Option<string>)
    requires WellFormed(e) && StoresAsMeant(s, e)
    ensures StoredChat(Step(s, e).storage, space)
         == if Space(s.slug) == space then ActOn(StoredChat(s.storage, space), e) else StoredChat(s.storage, space)
  {
    if Space(s.slug) != space {
      OtherChatUntouched(s, e, space);
    } else {
      ActionAsMeantIff(s, e);
    }
  }

  /** Every workspace's stored chat is what its own actions made of it. */
  ghost predicate Private(s: State, es: seq<Event>) {
    forall space :: StoredChat(Run(s, es).storage, space) == PrivateRun(StoredChat(s.storage, space), s, es, space)
  }

  ghost predicate AlwaysPrivate(s: State, es: seq<Event>) {
    Private(s, es) && (|es| > 0 ==> AlwaysPrivate(s, es[..|es| - 1]))
  }

  lemma PrivateStepIff(s: State, es: seq<Event>)
    requires |es| > 0 && AllWellFormed(es) && Private(s, es[..|es| - 1])
    ensures Private(s, es) <==> StoresAsMeant(Run(s, es[..|es| - 1]), es[|es| - 1])
  {
    var front, e := es[..|es| - 1], es[|es| - 1];
    var now := Run(s, front);
    var here := Space(now.slug);
    assert StoredChat(now.storage, here) == PrivateRun(StoredChat(s.storage, here), s, front, here);
    ActionAsMeantIff(now, e);
    if StoresAsMeant(now, e) {
      forall space ensures StoredChat(Run(s, es).storage, space) == PrivateRun(StoredChat(s.storage, space), s, es, space) {
        assert StoredChat(now.storage, space) == PrivateRun(StoredChat(s.storage, space), s, front, space);
        IsolatedStep(now, e, space);
      }
    } else {
      assert StoredChat(Run(s, es).storage, here) != PrivateRun(StoredChat(s.storage, here), s, es, here);
    }
  }

  /** The shared store behaves, at every moment of a run, as one private store per workspace exactly when
      every action is stored as meant. */
  lemma {:induction false} WorkspacesAreIsolatedIff(s: State, es: seq<Event>)
    requires AllWellFormed(es)
    ensures AlwaysPrivate(s, es) <==> Undisturbed(s, es)
  {
    if |es| == 0 {
    } else {
      WorkspacesAreIsolatedIff(s, es[..|es| - 1]);
      if AlwaysPrivate(s, es[..|es| - 1]) { PrivateStepIff(s, es); }
    }
  }

  /* ---- Drafts edited in the window ---- */

  /** Typing a draft in the window stores the previous workspace's drafts under the new one.  The stored
      drafts are the intended ones exactly when memory and storage agree on every other session. */
  lemma DraftIsolatedIff(s: State, session: string, draft: string, json: string)
    requires json != ""
    ensures StoredChat(Step(s, SetInputDraft(session, draft, json)).storage, Space(s.slug))
         == ActOn(StoredChat(s.storage, Space(s.slug)), SetInputDraft(session, draft, json))
       <==> OtherDraftsAgree(s, session)
  {
    DistinctKeysOf(Space(s.slug));
    var stored := StoredChat(s.storage, Space(s.slug)).drafts;
    WriteThenRead(s.storage, WsKey(s, DRAFTS_KEY), s.drafts[session := draft], json);
    PruneTwice(s.drafts[session := draft]);
    PruneTwice(ReadDrafts(s.storage, WsKey(s, DRAFTS_KEY)));
    PruneElsewhere(s.drafts, stored, session, draft);
  }

  /** The same for clearing a draft, except that a session unknown to memory is not looked up in storage. */
  lemma ClearIsolatedIff(s: State, session: string, json: string)
    requires json != ""
    ensures StoredChat(Step(s, ClearInputDraft(session, json)).storage, Space(s.slug))
         == ActOn(StoredChat(s.storage, Space(s.slug)), ClearInputDraft(session, json))
       <==> if session in s.drafts then OtherDraftsAgree(s, session)
            else session !in StoredChat(s.storage, Space(s.slug)).drafts
  {
    DistinctKeysOf(Space(s.slug));
    if session in s.drafts {
      WriteThenRead(s.storage, WsKey(s, DRAFTS_KEY), s.drafts - {session}, json);
      PruneTwice(s.drafts - {session});
      assert Prune(s.drafts - {session}) == Prune(s.drafts) - {session};
    } else {
      NothingCleared(StoredChat(s.storage, Space(s.slug)).drafts, session);
    }
  }

  lemma NothingCleared(d: Drafts, session: string)
    ensures d - {session} == d <==> session !in d
  {
    if session in d { assert session !in d - {session}; }
  }

  lemma PruneElsewhere(d: Drafts, stored: Drafts, k: string, v: string)
    requires Prune(stored) == stored
    ensures Prune(d[k := v]) == Prune(stored[k := v]) <==> Prune(d) - {k} == stored - {k}
  {
    var l, r := Prune(d[k := v]), Prune(stored[k := v]);
    assert l - {k} == Prune(d) - {k};
    assert r - {k} == stored - {k};
    if Prune(d) - {k} == stored - {k} {
      assert forall x :: x in l <==> x in r by {
        assert forall x :: x != k ==> (x in l <==> x in l - {k}) && (x in r <==> x in r - {k});
      }
      forall x | x in l ensures l[x] == r[x] {
        if x != k { assert l[x] == (l - {k})[x] && r[x] == (r - {k})[x]; }
      }
    }
  }
}
