/** The roster maintenance of `api_server.py`: the `/chessadd` and
    `/chessdelete` slash-command workers and the bulk `/api/players`
    upload. Slack, HTTP, the thread and the lock are outside the model: the
    Slack user lookup, the stats client, the store read and the store write
    arrive as parameters, and the reply message is the error constructor. */
module Roster {
  import opened Wrappers
  import opened Text
  import opened Ordering
  import opened Players

  /** The three arguments of `/chessadd <pseudo> <promo> <class>`. */
  datatype Command = Command(pseudo: string, promo: string, classLetter: string)

  /** What the Slack `users.info` call yields when it answers `ok`; a missing
      key reads as `""`. */
  datatype SlackProfile = SlackProfile(firstName: string, lastName: string, realName: string)

  /** Why a worker stops without writing; each stands for one reply message. */
  datatype RosterError =
    | MissingUserId
    | TokenMissing
    | NoPseudo
    | StatsUnavailable
    | DuplicatePseudo
    | DuplicateName
    | LookupFailed
    | NamesUnknown
    | LoadFailed
    | NotFound
    | SaveFailed

  /** `parts[i]` when present, else `''`. */
  function Token(ws: seq<string>, i: nat): string {
    if i < |ws| then ws[i] else ""
  }

  /** The command text cut into pseudo, promo and upper-cased class. */
  function ParseCommand(text: string): (c: Command)
    ensures NoSpace(c.pseudo) && NoSpace(c.promo) && NoSpace(c.classLetter)
    ensures forall i :: 0 <= i < |c.classLetter| ==> !('a' <= c.classLetter[i] <= 'z')
  {
    var ws := Split(text);
    UpperKeepsCaseInsensitiveIdentity(Token(ws, 2));
    assert forall i :: 0 <= i < |Upper(Token(ws, 2))| ==> !IsSpace(Upper(Token(ws, 2))[i]);
    Command(Token(ws, 0), Token(ws, 1), Upper(Token(ws, 2)))
  }

  /** Words typed with single spaces come back as the command's fields, in
      order; the fields the user left out are empty. */
  lemma ParseCommandOfWords(ws: seq<string>)
    requires forall i :: 0 <= i < |ws| ==> ws[i] != [] && NoSpace(ws[i])
    ensures ParseCommand(JoinWords(ws)).pseudo == (if |ws| > 0 then ws[0] else "")
    ensures ParseCommand(JoinWords(ws)).promo == (if |ws| > 1 then ws[1] else "")
    ensures ParseCommand(JoinWords(ws)).classLetter == (if |ws| > 2 then Upper(ws[2]) else "")
  {
    SplitJoinRoundTrip(ws);
  }

  /** The same for any whitespace the user types around and between the
      words: runs of spaces, tabs or newlines, leading or trailing. */
  lemma ParseCommandOfSpacedWords(ws: seq<string>, seps: seq<string>)
    requires forall i :: 0 <= i < |ws| ==> ws[i] != [] && NoSpace(ws[i])
    requires Separators(seps, |ws|)
    ensures ParseCommand(Spaced(ws, seps)).pseudo == (if |ws| > 0 then ws[0] else "")
    ensures ParseCommand(Spaced(ws, seps)).promo == (if |ws| > 1 then ws[1] else "")
    ensures ParseCommand(Spaced(ws, seps)).classLetter == (if |ws| > 2 then Upper(ws[2]) else "")
  {
    SplitSpacedRoundTrip(ws, seps);
  }

  /** The first and last name of a Slack profile: its own fields, or, when
      both are blank, `real_name` cut at its first space. */
  function ResolveNames(p: SlackProfile): (names: (string, string))
    ensures p.firstName != "" || p.lastName != "" ==> names == (p.firstName, p.lastName)
    ensures p.firstName == "" && p.lastName == "" && ' ' in p.realName ==>
      names.0 + " " + names.1 == p.realName && ' ' !in names.0
    ensures p.firstName == "" && p.lastName == "" && ' ' !in p.realName ==> names == (p.realName, "")
  {
    if p.firstName == "" && p.lastName == "" then SplitAtFirstSpace(p.realName)
    else (p.firstName, p.lastName)
  }

  /** A `real_name` "First Rest of name" whose first word has no space
      resolves back to that first word and the rest. */
  lemma ResolveNamesFromRealName(first: string, rest: string)
    requires ' ' !in first
    ensures ResolveNames(SlackProfile("", "", first + " " + rest)) == (first, rest)
    decreases |first|
  {
    var s := first + " " + rest;
    if first == [] {
      assert s == [' '] + rest;
    } else {
      assert s[1..] == first[1..] + " " + rest;
      ResolveNamesFromRealName(first[1..], rest);
      assert first == [first[0]] + first[1..];
    }
  }

  /** The record's first and last name both equal the given ones, ignoring
      case. */
  predicate MatchesName(p: Player, first: string, last: string) {
    SameIgnoringCase(p.firstName, first) && SameIgnoringCase(p.lastName, last)
  }

  predicate HasUsername(ps: seq<Player>, u: string) {
    exists i :: 0 <= i < |ps| && ps[i].username == u
  }

  predicate HasName(ps: seq<Player>, first: string, last: string) {
    exists i :: 0 <= i < |ps| && MatchesName(ps[i], first, last)
  }

  /** The names the add worker ends up with: none without a user id or when
      the lookup fails, which the add worker tolerates. */
  function AddNames(userId: string, lookup: Option<SlackProfile>): (string, string) {
    if userId == "" then ("", "")
    else match lookup
      case None => ("", "")
      case Some(p) => ResolveNames(p)
  }

  /** The record a new player enters the store with. */
  function NewRecord(c: Command, names: (string, string), s: Stats, today: string): (p: Player)
    ensures p.username == c.pseudo && p.firstName == names.0 && p.lastName == names.1
    ensures p.promo == c.promo && p.classLetter == c.classLetter
    ensures p.previousRank == 0
    ensures p.rapid == Some(s.rapid) && p.blitz == Some(s.blitz)
    ensures p.record == Some(s.record) && p.avatar == s.avatar
    ensures |p.history| == HISTORY_DAYS
    ensures forall i :: 0 <= i < |p.history| ==> p.history[i] == s.rapid.current
    ensures p.lastHistoryUpdate == today
  {
    Player(c.pseudo, names.0, names.1, c.promo, c.classLetter, 0,
      Some(s.rapid), Some(s.blitz), seq(HISTORY_DAYS, _ => s.rapid.current),
      today, Some(s.record), s.avatar)
  }

  /** The `/chessadd` worker. `tokenConfigured` is whether the Slack bot token
      is set, `lookup` the Slack profile (None when the call fails), `fetch`
      the stats client and `store` the stored list (None when unreadable,
      which the worker reads as an empty list). On success the result is the
      list written back. */
  function AddAccount(text: string, userId: string, tokenConfigured: bool, lookup: Option<SlackProfile>,
                      fetch: string -> Option<Stats>, today: string, store: Option<seq<Player>>)
    : (r: Result<seq<Player>, RosterError>)
    ensures userId != "" && !tokenConfigured ==> r == Failure(TokenMissing)
    ensures (userId == "" || tokenConfigured) && ParseCommand(text).pseudo == "" ==> r == Failure(NoPseudo)
    ensures r.Success? <==>
      (userId == "" || tokenConfigured) && ParseCommand(text).pseudo != ""
      && fetch(ParseCommand(text).pseudo).Some?
      && !HasUsername(store.GetOr([]), ParseCommand(text).pseudo)
      && !(AddNames(userId, lookup).0 != "" && AddNames(userId, lookup).1 != ""
           && HasName(store.GetOr([]), AddNames(userId, lookup).0, AddNames(userId, lookup).1))
    ensures r.Success? ==>
      |r.value| == |store.GetOr([])| + 1 && r.value[..|store.GetOr([])|] == store.GetOr([])
      && r.value[|store.GetOr([])|] ==
         NewRecord(ParseCommand(text), AddNames(userId, lookup), fetch(ParseCommand(text).pseudo).value, today)
  {
    var c := ParseCommand(text);
    if userId != "" && !tokenConfigured then Failure(TokenMissing)
    else
      var names := AddNames(userId, lookup);
      if c.pseudo == "" then Failure(NoPseudo)
      else match fetch(c.pseudo)
        case None => Failure(StatsUnavailable)
        case Some(s) =>
          var players := store.GetOr([]);
          if HasUsername(players, c.pseudo) then Failure(DuplicatePseudo)
          else if names.0 != "" && names.1 != "" && HasName(players, names.0, names.1) then Failure(DuplicateName)
          else Success(players + [NewRecord(c, names, s, today)])
  }

  /** Adding keeps the usernames of the store pairwise distinct. */
  lemma AddKeepsUniqueUsernames(text: string, userId: string, tokenConfigured: bool, lookup: Option<SlackProfile>,
                                fetch: string -> Option<Stats>, today: string, store: Option<seq<Player>>)
    requires UniqueUsernames(store.GetOr([]))
    requires AddAccount(text, userId, tokenConfigured, lookup, fetch, today, store).Success?
    ensures UniqueUsernames(AddAccount(text, userId, tokenConfigured, lookup, fetch, today, store).value)
  {
    var ps := store.GetOr([]);
    var r := AddAccount(text, userId, tokenConfigured, lookup, fetch, today, store).value;
    forall i, j | 0 <= i < j < |r|
      ensures r[i].username != r[j].username
    {
      if j < |ps| {
        assert r[i] == ps[i] && r[j] == ps[j];
      } else {
        assert r[i] == ps[i];
      }
    }
  }

  /** Without a pseudo the worker stops before the stats client and the store
      are consulted: the answer depends on neither. */
  lemma NoPseudoIgnoresStore(text: string, userId: string, tokenConfigured: bool, lookup: Option<SlackProfile>,
                             fetch: string -> Option<Stats>, fetch': string -> Option<Stats>,
                             today: string, store: Option<seq<Player>>, store': Option<seq<Player>>)
    requires Split(text) == []
    ensures AddAccount(text, userId, tokenConfigured, lookup, fetch, today, store)
         == AddAccount(text, userId, tokenConfigured, lookup, fetch', today, store')
  {
  }

  /** An unreadable store behaves as an empty one. */
  lemma UnreadableStoreReadsEmpty(text: string, userId: string, tokenConfigured: bool, lookup: Option<SlackProfile>,
                                  fetch: string -> Option<Stats>, today: string)
    ensures AddAccount(text, userId, tokenConfigured, lookup, fetch, today, None)
         == AddAccount(text, userId, tokenConfigured, lookup, fetch, today, Some([]))
  {
  }

  /** The test of the delete worker's list comprehension: a record stays
      unless it matches the name. */
  function KeepsUnmatched(first: string, last: string): Player -> bool {
    p => !MatchesName(p, first, last)
  }

  /** The store without every record matching the name, in order. */
  function RemoveByName(ps: seq<Player>, first: string, last: string): (r: seq<Player>)
    ensures IsSubsequence(r, ps)
    ensures forall x :: x in r <==> x in ps && !MatchesName(x, first, last)
    ensures forall x :: multiset(r)[x] == if MatchesName(x, first, last) then 0 else multiset(ps)[x]
    ensures |r| == |ps| <==> !HasName(ps, first, last)
    ensures |r| <= |ps|
  {
    var keep := KeepsUnmatched(first, last);
    FilterFacts(ps, keep);
    FilterCount(ps, keep);
    assert HasName(ps, first, last) <==> Dropped(ps, keep) != {} by {
      if HasName(ps, first, last) {
        var i :| 0 <= i < |ps| && MatchesName(ps[i], first, last);
        assert i in Dropped(ps, keep);
      }
      if Dropped(ps, keep) != {} {
        var i :| i in Dropped(ps, keep);
        assert MatchesName(ps[i], first, last);
      }
    }
    Filter(ps, keep)
  }

  /** Removing from a store with a record appended removes from the store and
      then filters the record. */
  lemma RemoveByNameAppend(ps: seq<Player>, x: Player, first: string, last: string)
    ensures RemoveByName(ps + [x], first, last)
         == RemoveByName(ps, first, last) + (if MatchesName(x, first, last) then [] else [x])
  {
    FilterAppend(ps, x, KeepsUnmatched(first, last));
  }

  /** A store with no record of the name is left as it is. */
  lemma RemoveByNameAbsent(ps: seq<Player>, first: string, last: string)
    requires !HasName(ps, first, last)
    ensures RemoveByName(ps, first, last) == ps
  {
    FilterKeepsAll(ps, KeepsUnmatched(first, last));
  }

  /** The `/chessdelete` route and worker. `lookup` is the Slack profile
      (None when the call fails or answers an error, both of which stop the
      worker), `store` the stored list (None when unreadable) and
      `saveSucceeds` whether writing it back works. On success the result is
      the list written back. */
  function DeleteAccount(userId: string, tokenConfigured: bool, lookup: Option<SlackProfile>,
                         store: Option<seq<Player>>, saveSucceeds: bool)
    : (r: Result<seq<Player>, RosterError>)
    ensures userId == "" ==> r == Failure(MissingUserId)
    ensures userId != "" && !tokenConfigured ==> r == Failure(TokenMissing)
    ensures userId != "" && tokenConfigured && lookup.None? ==> r == Failure(LookupFailed)
    ensures r.Success? <==>
      userId != "" && tokenConfigured && lookup.Some?
      && ResolveNames(lookup.value).0 != "" && ResolveNames(lookup.value).1 != ""
      && store.Some? && HasName(store.value, ResolveNames(lookup.value).0, ResolveNames(lookup.value).1)
      && saveSucceeds
    ensures r.Success? ==>
      IsSubsequence(r.value, store.value) && |r.value| < |store.value|
      && (forall x :: x in r.value <==>
           x in store.value && !MatchesName(x, ResolveNames(lookup.value).0, ResolveNames(lookup.value).1))
      && forall x :: multiset(r.value)[x] ==
           if MatchesName(x, ResolveNames(lookup.value).0, ResolveNames(lookup.value).1) then 0
           else multiset(store.value)[x]
  {
    if userId == "" then Failure(MissingUserId)
    else if !tokenConfigured then Failure(TokenMissing)
    else match lookup
      case None => Failure(LookupFailed)
      case Some(p) =>
        var (first, last) := ResolveNames(p);
        if first == "" || last == "" then Failure(NamesUnknown)
        else match store
          case None => Failure(LoadFailed)
          case Some(players) =>
            var kept := RemoveByName(players, first, last);
            if |kept| == |players| then Failure(NotFound)
            else if !saveSucceeds then Failure(SaveFailed)
            else Success(kept)
  }

  /** Deleting right after an add by the same Slack user, whose profile
      gives both names, gives back the store as it was before the add. */
  lemma DeleteUndoesAdd(text: string, userId: string, p: SlackProfile,
                        fetch: string -> Option<Stats>, today: string, store: seq<Player>)
    requires userId != ""
    requires ResolveNames(p).0 != "" && ResolveNames(p).1 != ""
    requires AddAccount(text, userId, true, Some(p), fetch, today, Some(store)).Success?
    ensures DeleteAccount(userId, true, Some(p), Some(AddAccount(text, userId, true, Some(p), fetch, today, Some(store)).value), true)
         == Success(store)
  {
    var names := ResolveNames(p);
    var added := AddAccount(text, userId, true, Some(p), fetch, today, Some(store)).value;
    assert AddNames(userId, Some(p)) == names;
    var x := added[|store|];
    assert x.firstName == names.0 && x.lastName == names.1;
    assert added == added[..|store|] + [x];
    assert !HasName(store, names.0, names.1);
    RemoveByNameAppend(store, x, names.0, names.1);
    RemoveByNameAbsent(store, names.0, names.1);
    var kept := RemoveByName(added, names.0, names.1);
    assert kept == store;
    assert |kept| != |added|;
  }

  /** The body of a `/api/players` request as the JSON decoder sees it. */
  datatype Payload<T> = Malformed | NotAList | ListOf(items: seq<T>)

  /** An HTTP status and, when the file was written, what it holds. */
  datatype Reply<T> = Reply(status: int, saved: Option<seq<T>>)

  /** The bulk upload: a list replaces the store wholesale, anything else is
      refused. A decoding or writing error answers 500. */
  function UpdatePlayers<T>(payload: Payload<T>, writeSucceeds: bool): (r: Reply<T>)
    ensures payload.NotAList? <==> r.status == 400
    ensures r.status == 200 <==> payload.ListOf? && writeSucceeds
    ensures r.status == 200 ==> r.saved == Some(payload.items)
    ensures r.status != 200 ==> r.saved.None?
  {
    match payload
    case Malformed => Reply(500, None)
    case NotAList => Reply(400, None)
    case ListOf(items) => if writeSucceeds then Reply(200, Some(items)) else Reply(500, None)
  }
}
