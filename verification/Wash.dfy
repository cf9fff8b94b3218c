/**
 Washing a recording: the elements of an XML file are folded into message lists, a map of
 users and a nested map of medals, which are listed at the end.
 */
module Wash {
  import opened Base
  import opened WashHeader
  import UserMeta
  import Medals

  type User = UserMeta.UserInfo
  type Medal = Medals.Medal

  // ---- messages -------------------------------------------------------------------

  datatype Kind = Damaku | Gift | SuperChat | Guard

  /** A message keeps the user it came from and the room of the medal worn (0 for none). */
  datatype Message = Message(uid: uint64, medal: uint64, body: string)

  datatype Event = Event(kind: Kind, user: User, medal: Option<Medal>, message: Message)

  function Uint32(n: uint64): nat {
    n % 0x1_0000_0000
  }

  function Int32(n: uint64): int {
    var low := n % 0x1_0000_0000;
    if low < 0x8000_0000 then low else low - 0x1_0000_0000
  }

  function MedalIn(json: Json): Medal {
    match json.medal
    case None => Medals.Medal(json.uid, 0, "", 0, false, 0)
    case Some(m) => Medals.Medal(json.uid, m.roomUid, m.name, Uint32(m.level), m.light, Int32(m.guardLevel))
  }

  function NonEmpty(s: string): Option<string> {
    if s == "" then None else Some(s)
  }

  /** The four parsers. A super chat always has a face and a level, a gift may have a wealth
      level, and a guard has no medal. */
  function Parse(kind: Kind, json: Json): Event {
    var user :=
      match kind
      case Damaku => UserMeta.UserInfo(json.uid, json.name, NonEmpty(json.face), None, None)
      case Gift =>
        UserMeta.UserInfo(json.uid, json.name, NonEmpty(json.face), None,
                          if json.wealth == 0 then None else Some(Uint32(json.wealth)))
      case SuperChat => UserMeta.UserInfo(json.uid, json.name, Some(json.face), Some(Uint32(json.level)), None)
      case Guard => UserMeta.UserInfo(json.uid, json.name, None, None, None);
    if kind == Guard then Event(kind, user, None, Message(json.uid, 0, json.body))
    else Event(kind, user, Some(MedalIn(json)), Message(json.uid, MedalIn(json).roomUid, json.body))
  }

  function KindOf(element: string): Option<Kind> {
    if element == "d" then Some(Damaku)
    else if element == "gift" then Some(Gift)
    else if element == "sc" then Some(SuperChat)
    else if element == "guard" then Some(Guard)
    else None
  }

  function EventsOf(kind: Kind, attrs: seq<Attr>): seq<Event> {
    if attrs == [] then []
    else
      var last := attrs[|attrs| - 1];
      EventsOf(kind, attrs[..|attrs| - 1]) + if last.name == "raw" then [Parse(kind, last.json)] else []
  }

  function Events(token: Token): seq<Event> {
    if token.Start? && KindOf(token.element) != None then EventsOf(KindOf(token.element).value, token.attrs) else []
  }

  function History(tokens: seq<Token>): seq<Event> {
    if tokens == [] then [] else History(tokens[..|tokens| - 1]) + Events(tokens[|tokens| - 1])
  }

  // ---- what the output should be, from the history alone ------------------------

  /** The last event a question is answered yes for. */
  function Latest(h: seq<Event>, asks: Event -> bool): Option<Event> {
    if h == [] then None
    else if asks(h[|h| - 1]) then Some(h[|h| - 1])
    else Latest(h[..|h| - 1], asks)
  }

  ghost predicate IsLatest(h: seq<Event>, asks: Event -> bool, i: int) {
    0 <= i < |h| && asks(h[i]) && forall j :: i < j < |h| ==> !asks(h[j])
  }

  lemma {:induction false} LatestIndex(h: seq<Event>, asks: Event -> bool) returns (i: int)
    ensures Latest(h, asks) == None ==> forall j :: 0 <= j < |h| ==> !asks(h[j])
    ensures Latest(h, asks) != None ==> IsLatest(h, asks, i) && Latest(h, asks) == Some(h[i])
  {
    i := |h| - 1;
    if h != [] && !asks(h[i]) {
      i := LatestIndex(h[..i], asks);
    }
  }

  /** Latest picks the event at the last index where the answer is yes, if there is one. */
  lemma LatestIsLast(h: seq<Event>, asks: Event -> bool)
    ensures Latest(h, asks) == None <==> forall i :: 0 <= i < |h| ==> !asks(h[i])
    ensures forall i :: IsLatest(h, asks, i) ==> Latest(h, asks) == Some(h[i])
    ensures Latest(h, asks) != None ==> exists i :: IsLatest(h, asks, i)
  {
    var k := LatestIndex(h, asks);
    if Latest(h, asks) != None {
      assert IsLatest(h, asks, k);
      forall i | IsLatest(h, asks, i) ensures i == k {
        assert asks(h[i]) && asks(h[k]);
      }
    }
  }

  lemma LatestStep(h: seq<Event>, e: Event, asks: Event -> bool)
    ensures Latest(h + [e], asks) == if asks(e) then Some(e) else Latest(h, asks)
  {
    assert (h + [e])[..|h|] == h;
  }

  function By(uid: uint64): Event -> bool {
    (e: Event) => e.user.uid == uid
  }

  function FaceBy(uid: uint64): Event -> bool {
    (e: Event) => e.user.uid == uid && e.user.face != None
  }

  /** The switch looks at the level only when there is no face. */
  function LevelBy(uid: uint64): Event -> bool {
    (e: Event) => e.user.uid == uid && e.user.face == None && e.user.level != None
  }

  function WealthBy(uid: uint64): Event -> bool {
    (e: Event) => e.user.uid == uid && e.user.face == None && e.user.level == None && e.user.wealth != None
  }

  function MedalBy(uid: uint64, room: uint64): Event -> bool {
    (e: Event) => room != 0 && e.medal != None && e.medal.value.uid == uid && e.medal.value.roomUid == room
  }

  function UserOf(h: seq<Event>, uid: uint64): User {
    var named := Latest(h, By(uid));
    var faced := Latest(h, FaceBy(uid));
    var leveled := Latest(h, LevelBy(uid));
    var wealthy := Latest(h, WealthBy(uid));
    UserMeta.UserInfo(uid,
                      if named == None then "" else named.value.user.name,
                      if faced == None then None else faced.value.user.face,
                      if leveled == None then None else leveled.value.user.level,
                      if wealthy == None then None else wealthy.value.user.wealth)
  }

  /** Field by field: the last name, the last face, and the last level and wealth level the
      switch comes to. */
  lemma UserOfFields(h: seq<Event>, uid: uint64, i: int)
    ensures IsLatest(h, By(uid), i) ==> UserOf(h, uid).name == h[i].user.name
    ensures IsLatest(h, FaceBy(uid), i) ==> UserOf(h, uid).face == h[i].user.face
    ensures IsLatest(h, LevelBy(uid), i) ==> UserOf(h, uid).level == h[i].user.level
    ensures IsLatest(h, WealthBy(uid), i) ==> UserOf(h, uid).wealth == h[i].user.wealth
    ensures (forall j :: 0 <= j < |h| ==> !FaceBy(uid)(h[j])) ==> UserOf(h, uid).face == None
  {
    LatestIsLast(h, By(uid));
    LatestIsLast(h, FaceBy(uid));
    LatestIsLast(h, LevelBy(uid));
    LatestIsLast(h, WealthBy(uid));
  }

  ghost predicate UsersMatch(users: map<uint64, User>, h: seq<Event>) {
    forall uid: uint64 ::
      (uid in users <==> Latest(h, By(uid)) != None) && (uid in users ==> users[uid] == UserOf(h, uid))
  }

  type MedalMap = map<uint64, map<uint64, Medal>>

  function Look(medals: MedalMap, uid: uint64, room: uint64): Option<Medal> {
    if uid in medals && room in medals[uid] then Some(medals[uid][room]) else None
  }

  function MedalOf(h: seq<Event>, uid: uint64, room: uint64): Option<Medal> {
    var worn := Latest(h, MedalBy(uid, room));
    if worn == None then None else worn.value.medal
  }

  ghost predicate MedalsMatch(medals: MedalMap, h: seq<Event>) {
    forall uid: uint64, room: uint64 :: Look(medals, uid, room) == MedalOf(h, uid, room)
  }

  function Messages(h: seq<Event>, kind: Kind): seq<Message> {
    if h == [] then []
    else
      var last := h[|h| - 1];
      Messages(h[..|h| - 1], kind) + if last.kind == kind then [last.message] else []
  }

  // ---- the fold ----------------------------------------------------------------------

  /** updateUser on one record: the name always, then the first optional field present. */
  function Overlaid(info: User, seen: User): User {
    var named := info.(uid := seen.uid, name := seen.name);
    if seen.face != None then named.(face := seen.face)
    else if seen.level != None then named.(level := seen.level)
    else if seen.wealth != None then named.(wealth := seen.wealth)
    else named
  }

  const BLANK := UserMeta.UserInfo(0, "", None, None, None)

  function UserStep(users: map<uint64, User>, seen: User): map<uint64, User> {
    users[seen.uid := Overlaid(if seen.uid in users then users[seen.uid] else BLANK, seen)]
  }

  function MedalStep(medals: MedalMap, seen: Option<Medal>): MedalMap {
    if seen == None || seen.value.roomUid == 0 then medals
    else
      var m := seen.value;
      medals[m.uid := (if m.uid in medals then medals[m.uid] else map[])[m.roomUid := m]]
  }

  lemma UserOfStep(h: seq<Event>, e: Event, uid: uint64)
    ensures uid != e.user.uid ==> UserOf(h + [e], uid) == UserOf(h, uid)
    ensures uid == e.user.uid ==> UserOf(h + [e], uid) == Overlaid(UserOf(h, uid), e.user)
  {
    LatestStep(h, e, By(uid));
    LatestStep(h, e, FaceBy(uid));
    LatestStep(h, e, LevelBy(uid));
    LatestStep(h, e, WealthBy(uid));
  }

  lemma {:induction false} NeverSeen(h: seq<Event>, uid: uint64)
    requires Latest(h, By(uid)) == None
    ensures UserOf(h, uid) == BLANK.(uid := uid)
  {
    if h == [] {
    } else {
      var front := h[..|h| - 1];
      assert h == front + [h[|h| - 1]];
      LatestStep(front, h[|h| - 1], By(uid));
      NeverSeen(front, uid);
      UserOfStep(front, h[|h| - 1], uid);
    }
  }

  /** One call of updateUser keeps the map equal to what the history says. */
  lemma UsersStep(users: map<uint64, User>, h: seq<Event>, e: Event)
    requires UsersMatch(users, h)
    ensures UsersMatch(UserStep(users, e.user), h + [e])
  {
    var next := UserStep(users, e.user);
    forall uid: uint64
      ensures uid in next <==> Latest(h + [e], By(uid)) != None
      ensures uid in next ==> next[uid] == UserOf(h + [e], uid)
    {
      LatestStep(h, e, By(uid));
      UserOfStep(h, e, uid);
      if uid == e.user.uid && uid !in users {
        NeverSeen(h, uid);
      }
    }
  }

  /** Every medal is stored under its own user and room. */
  ghost predicate Keyed(medals: MedalMap) {
    forall uid: uint64, room: uint64 | Look(medals, uid, room) != None ::
      Look(medals, uid, room).value.uid == uid && Look(medals, uid, room).value.roomUid == room && room != 0
  }

  lemma MatchIsKeyed(medals: MedalMap, h: seq<Event>)
    requires MedalsMatch(medals, h)
    ensures Keyed(medals)
  {
    forall uid: uint64, room: uint64 | Look(medals, uid, room) != None
      ensures Look(medals, uid, room).value.uid == uid && Look(medals, uid, room).value.roomUid == room && room != 0
    {
      assert MedalOf(h, uid, room) != None;
      LatestAsks(h, MedalBy(uid, room));
    }
  }

  lemma LatestAsks(h: seq<Event>, asks: Event -> bool)
    requires Latest(h, asks) != None
    ensures asks(Latest(h, asks).value) && Latest(h, asks).value in h
  {
    LatestIsLast(h, asks);
    var i :| IsLatest(h, asks, i);
  }

  lemma LookStep(medals: MedalMap, seen: Option<Medal>, uid: uint64, room: uint64)
    ensures Look(MedalStep(medals, seen), uid, room) ==
            if seen != None && room != 0 && seen.value.uid == uid && seen.value.roomUid == room then seen
            else Look(medals, uid, room)
  {
  }

  /** One call of updateMedal (or none, for a guard) keeps the nested map equal to what the
      history says. */
  lemma MedalsStep(medals: MedalMap, h: seq<Event>, e: Event)
    requires MedalsMatch(medals, h)
    ensures MedalsMatch(MedalStep(medals, e.medal), h + [e])
  {
    var next := MedalStep(medals, e.medal);
    forall uid: uint64, room: uint64 ensures Look(next, uid, room) == MedalOf(h + [e], uid, room) {
      LatestStep(h, e, MedalBy(uid, room));
      LookStep(medals, e.medal, uid, room);
      assert Look(medals, uid, room) == MedalOf(h, uid, room);
    }
  }

  // ---- the output listing ---------------------------------------------------------------

  ghost predicate ListsUsers(out: seq<User>, users: map<uint64, User>) {
    && (forall i :: 0 <= i < |out| ==> out[i].uid in users && out[i] == users[out[i].uid])
    && (forall i, j :: 0 <= i < j < |out| ==> out[i].uid != out[j].uid)
    && (forall uid :: uid in users ==> users[uid] in out)
  }

  ghost predicate ListsMedals(out: seq<Medal>, medals: MedalMap) {
    && (forall i :: 0 <= i < |out| ==> Look(medals, out[i].uid, out[i].roomUid) == Some(out[i]))
    && (forall i, j :: 0 <= i < j < |out| ==> out[i].uid != out[j].uid || out[i].roomUid != out[j].roomUid)
    && (forall uid, room :: Look(medals, uid, room) != None ==> Look(medals, uid, room).value in out)
  }

  ghost predicate AreMessages(damaku: seq<Message>, gift: seq<Message>, guard: seq<Message>, superChat: seq<Message>,
      h: seq<Event>)
  {
    && damaku == Messages(h, Damaku)
    && gift == Messages(h, Gift)
    && guard == Messages(h, Guard)
    && superChat == Messages(h, SuperChat)
  }

  class BliveData {
    var meta: Meta
    var damaku: seq<Message>
    var gift: seq<Message>
    var guard: seq<Message>
    var superChat: seq<Message>
    var user: seq<User>
    var fansMedal: seq<Medal>
    var mapUser: map<uint64, User>
    var mapMedal: MedalMap

    constructor ()
      ensures Holds([]) && user == [] && fansMedal == [] && meta == NO_META
    {
      meta := NO_META;
      damaku, gift, guard, superChat, user, fansMedal := [], [], [], [], [], [];
      mapUser, mapMedal := map[], map[];
    }

    /** The data is exactly what a history of events says. */
    ghost predicate Holds(h: seq<Event>)
      reads this
    {
      && UsersMatch(mapUser, h)
      && MedalsMatch(mapMedal, h)
      && AreMessages(damaku, gift, guard, superChat, h)
    }

    method UpdateUser(userInfo: User)
      modifies this`mapUser
      ensures mapUser == UserStep(old(mapUser), userInfo)
    {
      var info := BLANK;
      if userInfo.uid in mapUser {
        info := mapUser[userInfo.uid];
      }
      info := info.(uid := userInfo.uid, name := userInfo.name);
      if userInfo.face != None {
        info := info.(face := userInfo.face);
      } else if userInfo.level != None {
        info := info.(level := userInfo.level);
      } else if userInfo.wealth != None {
        info := info.(wealth := userInfo.wealth);
      }
      mapUser := mapUser[userInfo.uid := info];
    }

    method UpdateMedal(medalInfo: Medal)
      requires Keyed(mapMedal)
      modifies this`mapMedal
      ensures mapMedal == MedalStep(old(mapMedal), Some(medalInfo))
    {
      if medalInfo.roomUid == 0 {
        return;
      }
      var medal: map<uint64, Medal> := map[];
      if medalInfo.uid in mapMedal {
        medal := mapMedal[medalInfo.uid];
      }
      var roomMedal := Medals.Medal(medalInfo.uid, medalInfo.roomUid, "", 0, false, 0);
      if medalInfo.roomUid in medal {
        roomMedal := medal[medalInfo.roomUid];
        assert Look(mapMedal, medalInfo.uid, medalInfo.roomUid) == Some(roomMedal);
      }
      roomMedal := medalInfo.(uid := roomMedal.uid, roomUid := roomMedal.roomUid);
      medal := medal[medalInfo.roomUid := roomMedal];
      mapMedal := mapMedal[medalInfo.uid := medal];
    }

    /** What every branch of attrParse does with one raw attribute. */
    method Record(e: Event, ghost h: seq<Event>)
      requires Holds(h)
      modifies this`damaku, this`gift, this`guard, this`superChat, this`mapUser, this`mapMedal
      ensures Holds(h + [e])
    {
      UsersStep(mapUser, h, e);
      MatchIsKeyed(mapMedal, h);
      MedalsStep(mapMedal, h, e);
      Append(e, h);
      UpdateUser(e.user);
      if e.medal != None {
        UpdateMedal(e.medal.value);
      }
    }

    method Append(e: Event, ghost h: seq<Event>)
      requires AreMessages(damaku, gift, guard, superChat, h)
      modifies this`damaku, this`gift, this`guard, this`superChat
      ensures AreMessages(damaku, gift, guard, superChat, h + [e])
    {
      MessagesStep(h, e, Damaku);
      MessagesStep(h, e, Gift);
      MessagesStep(h, e, Guard);
      MessagesStep(h, e, SuperChat);
      match e.kind
      case Damaku => damaku := damaku + [e.message];
      case Gift => gift := gift + [e.message];
      case SuperChat => superChat := superChat + [e.message];
      case Guard => guard := guard + [e.message];
    }

    /** One token: header elements fill the meta data, message elements are recorded. */
    method AttrParse(token: Token, ghost h: seq<Event>)
      requires Holds(h)
      modifies this`meta, this`damaku, this`gift, this`guard, this`superChat, this`mapUser, this`mapMedal
      ensures Holds(h + Events(token)) && meta == MetaAfter(old(meta), Headers(token))
    {
      assert h + [] == h;
      if token.Start? {
        HeaderParse(token);
        var kind := KindOf(token.element);
        if kind != None {
          MessageParse(kind.value, token.attrs, h);
        }
      }
    }

    method HeaderParse(token: Token)
      requires token.Start?
      modifies this`meta
      ensures meta == MetaAfter(old(meta), Headers(token))
    {
      var attrs := token.attrs;
      for i := 0 to |attrs|
        invariant meta == MetaAfter(old(meta), HeadersOf(token.element, attrs[..i]))
      {
        assert attrs[..i + 1][..i] == attrs[..i];
        HeadersStep(old(meta), token.element, attrs[..i], attrs[i]);
        meta := SetAttr(meta, token.element, attrs[i]);
      }
      assert attrs[..|attrs|] == attrs;
    }

    method MessageParse(kind: Kind, attrs: seq<Attr>, ghost h: seq<Event>)
      requires Holds(h)
      modifies this`damaku, this`gift, this`guard, this`superChat, this`mapUser, this`mapMedal
      ensures Holds(h + EventsOf(kind, attrs))
    {
      assert h + [] == h;
      for i := 0 to |attrs|
        invariant Holds(h + EventsOf(kind, attrs[..i]))
      {
        ghost var before := EventsOf(kind, attrs[..i]);
        assert attrs[..i + 1][..i] == attrs[..i];
        if attrs[i].name == "raw" {
          var e := Parse(kind, attrs[i].json);
          Record(e, h + before);
          assert h + before + [e] == h + (before + [e]);
        } else {
          assert before + [] == before;
        }
      }
      assert attrs[..|attrs|] == attrs;
    }

    method ListUsers()
      requires user == [] && forall uid :: uid in mapUser ==> mapUser[uid].uid == uid
      modifies this`user
      ensures ListsUsers(user, mapUser)
    {
      var left := mapUser.Keys;
      while left != {}
        invariant left <= mapUser.Keys
        invariant forall i :: 0 <= i < |user| ==>
                  user[i].uid in mapUser && user[i] == mapUser[user[i].uid] && user[i].uid !in left
        invariant forall i, j :: 0 <= i < j < |user| ==> user[i].uid != user[j].uid
        invariant forall uid :: uid in mapUser && uid !in left ==> mapUser[uid] in user
        decreases |left|
      {
        var uid :| uid in left;
        user := user + [mapUser[uid]];
        left := left - {uid};
      }
    }

    method ListMedals()
      requires fansMedal == [] && Keyed(mapMedal)
      modifies this`fansMedal
      ensures ListsMedals(fansMedal, mapMedal)
    {
      var left := mapMedal.Keys;
      while left != {}
        invariant left <= mapMedal.Keys
        invariant MedalsListed(fansMedal, mapMedal, left, 0, {})
        decreases |left|
      {
        var uid :| uid in left;
        var rooms := mapMedal[uid].Keys;
        UserBegun(fansMedal, mapMedal, left, uid);
        left := left - {uid};
        while rooms != {}
          invariant rooms <= mapMedal[uid].Keys && uid !in left
          invariant MedalsListed(fansMedal, mapMedal, left, uid, rooms)
          decreases |rooms|
        {
          var room :| room in rooms;
          MedalTaken(fansMedal, mapMedal, left, uid, rooms, room);
          fansMedal := fansMedal + [mapMedal[uid][room]];
          rooms := rooms - {room};
        }
        UserDone(fansMedal, mapMedal, left, uid);
      }
    }

    /** The whole washer: nothing is written for malformed XML, otherwise the data listed is
        that of the whole history. */
    method Wash(tokens: seq<Token>) returns (written: bool)
      requires Holds([]) && user == [] && fansMedal == [] && meta == NO_META
      modifies this
      ensures written <==> Malformed !in tokens
      ensures written ==> Holds(History(tokens)) && Output(History(tokens), user, fansMedal)
      ensures written ==> meta == MetaAfter(NO_META, AllHeaders(tokens))
    {
      for i := 0 to |tokens|
        invariant Holds(History(tokens[..i])) && user == [] && fansMedal == []
        invariant meta == MetaAfter(NO_META, AllHeaders(tokens[..i]))
        invariant Malformed !in tokens[..i]
      {
        if tokens[i] == Malformed {
          return false;
        }
        assert tokens[..i + 1][..i] == tokens[..i];
        MetaConcat(NO_META, AllHeaders(tokens[..i]), Headers(tokens[i]));
        AttrParse(tokens[i], History(tokens[..i]));
      }
      assert tokens[..|tokens|] == tokens;
      MatchIsKeyed(mapMedal, History(tokens));
      ListUsers();
      ListMedals();
      return true;
    }
  }

  /** The listing inside the two nested loops: everything outside the users left, and outside
      the rooms left of the user at hand. */
  ghost predicate MedalsListed(out: seq<Medal>, medals: MedalMap, left: set<uint64>, uid: uint64, rooms: set<uint64>) {
    && (forall i :: 0 <= i < |out| ==> Listed(out[i], medals, left, uid, rooms))
    && (forall i, j :: 0 <= i < j < |out| ==> out[i].uid != out[j].uid || out[i].roomUid != out[j].roomUid)
    && (forall u, r :: Look(medals, u, r) != None && !Pending(left, uid, rooms, u, r) ==>
        Look(medals, u, r).value in out)
  }

  predicate Listed(m: Medal, medals: MedalMap, left: set<uint64>, uid: uint64, rooms: set<uint64>) {
    Look(medals, m.uid, m.roomUid) == Some(m) && !Pending(left, uid, rooms, m.uid, m.roomUid)
  }

  predicate Pending(left: set<uint64>, uid: uint64, rooms: set<uint64>, u: uint64, r: uint64) {
    u in left || (u == uid && r in rooms)
  }

  lemma UserBegun(out: seq<Medal>, medals: MedalMap, left: set<uint64>, uid: uint64)
    requires MedalsListed(out, medals, left, 0, {}) && uid in left && left <= medals.Keys
    ensures MedalsListed(out, medals, left - {uid}, uid, medals[uid].Keys)
  {
    forall i | 0 <= i < |out| ensures Listed(out[i], medals, left - {uid}, uid, medals[uid].Keys) {
      assert Listed(out[i], medals, left, 0, {});
    }
    forall u, r | Look(medals, u, r) != None && !Pending(left - {uid}, uid, medals[uid].Keys, u, r)
      ensures Look(medals, u, r).value in out
    {
      assert !Pending(left, 0, {}, u, r);
    }
  }

  lemma UserDone(out: seq<Medal>, medals: MedalMap, left: set<uint64>, uid: uint64)
    requires MedalsListed(out, medals, left, uid, {})
    ensures MedalsListed(out, medals, left, 0, {})
  {
    forall i | 0 <= i < |out| ensures Listed(out[i], medals, left, 0, {}) {
      assert Listed(out[i], medals, left, uid, {});
    }
    forall u, r | Look(medals, u, r) != None && !Pending(left, 0, {}, u, r) ensures Look(medals, u, r).value in out {
      assert !Pending(left, uid, {}, u, r);
    }
  }

  lemma MedalTaken(out: seq<Medal>, medals: MedalMap, left: set<uint64>, uid: uint64, rooms: set<uint64>, room: uint64)
    requires Keyed(medals) && MedalsListed(out, medals, left, uid, rooms)
    requires uid in medals && uid !in left && room in rooms && rooms <= medals[uid].Keys
    ensures MedalsListed(out + [medals[uid][room]], medals, left, uid, rooms - {room})
  {
    var m := medals[uid][room];
    assert Look(medals, uid, room) == Some(m);
    assert m.uid == uid && m.roomUid == room;
    var next := out + [m];
    assert Listed(m, medals, left, uid, rooms - {room});
    forall i | 0 <= i < |out|
      ensures Listed(out[i], medals, left, uid, rooms - {room}) && (out[i].uid != uid || out[i].roomUid != room)
    {
      assert Listed(out[i], medals, left, uid, rooms);
    }
    assert forall i :: 0 <= i < |out| ==> next[i] == out[i];
    forall u, r | Look(medals, u, r) != None && !Pending(left, uid, rooms - {room}, u, r)
      ensures Look(medals, u, r).value in next
    {
      assert next[|out|] == m;
      if !Pending(left, uid, rooms, u, r) {
        assert Look(medals, u, r).value in out;
      }
    }
  }

  lemma MessagesStep(h: seq<Event>, e: Event, kind: Kind)
    ensures Messages(h + [e], kind) == Messages(h, kind) + if e.kind == kind then [e.message] else []
  {
    assert (h + [e])[..|h|] == h;
  }

  // ---- what the output promises --------------------------------------------------------

  /** The output of one file, in any order the two map iterations take. */
  ghost predicate Output(h: seq<Event>, user: seq<User>, medal: seq<Medal>) {
    exists users, medals ::
      UsersMatch(users, h) && MedalsMatch(medals, h) && ListsUsers(user, users) && ListsMedals(medal, medals)
  }

  /** Exactly one user per id seen, with the fields the history says. */
  lemma UsersListed(h: seq<Event>, user: seq<User>, medal: seq<Medal>, uid: uint64)
    requires Output(h, user, medal)
    ensures (exists e :: e in h && e.user.uid == uid) <==> UserOf(h, uid) in user
    ensures forall i, j :: 0 <= i < |user| && 0 <= j < |user| && user[i].uid == user[j].uid ==> i == j
    ensures forall u :: u in user && u.uid == uid ==> u == UserOf(h, uid)
  {
    var users, medals :| UsersMatch(users, h) && MedalsMatch(medals, h) && ListsUsers(user, users) &&
        ListsMedals(medal, medals);
    LatestIsLast(h, By(uid));
    assert uid in users <==> Latest(h, By(uid)) != None;
    if e :| e in h && e.user.uid == uid {
      var i :| 0 <= i < |h| && h[i] == e;
      assert By(uid)(h[i]);
      assert users[uid] in user;
    }
    if UserOf(h, uid) in user {
      var i :| 0 <= i < |user| && user[i] == UserOf(h, uid);
      assert user[i].uid in users;
      LatestAsks(h, By(uid));
    }
  }

  /** Exactly one medal per user and nonzero room seen, equal to the last one seen. */
  lemma MedalsListedOnce(h: seq<Event>, user: seq<User>, medal: seq<Medal>, uid: uint64, room: uint64)
    requires Output(h, user, medal)
    ensures (exists e :: e in h && MedalBy(uid, room)(e)) <==>
            (exists m :: m in medal && m.uid == uid && m.roomUid == room)
    ensures forall m :: m in medal && m.uid == uid && m.roomUid == room ==> MedalOf(h, uid, room) == Some(m)
    ensures forall i, j | 0 <= i < |medal| && 0 <= j < |medal| ::
              medal[i].uid == medal[j].uid && medal[i].roomUid == medal[j].roomUid ==> i == j
  {
    var users, medals :| UsersMatch(users, h) && MedalsMatch(medals, h) && ListsUsers(user, users) &&
        ListsMedals(medal, medals);
    LatestIsLast(h, MedalBy(uid, room));
    assert Look(medals, uid, room) == MedalOf(h, uid, room);
    if e :| e in h && MedalBy(uid, room)(e) {
      var i :| 0 <= i < |h| && h[i] == e;
      LatestAsks(h, MedalBy(uid, room));
      var m := Look(medals, uid, room).value;
      assert m in medal && m.uid == uid && m.roomUid == room;
    }
    if m :| m in medal && m.uid == uid && m.roomUid == room {
      var i :| 0 <= i < |medal| && medal[i] == m;
      LatestAsks(h, MedalBy(uid, room));
    }
  }

  /** Every message listed refers to a user listed, and every medal it names is listed. */
  lemma ReferencesResolve(tokens: seq<Token>, user: seq<User>, medal: seq<Medal>, kind: Kind, m: Message)
    requires Output(History(tokens), user, medal) && m in Messages(History(tokens), kind)
    ensures exists u :: u in user && u.uid == m.uid
    ensures m.medal != 0 ==> exists f :: f in medal && f.uid == m.uid && f.roomUid == m.medal
  {
    var h := History(tokens);
    var e := MessageEvent(h, kind, m);
    HistoryParsed(tokens, e);
    UsersListed(h, user, medal, m.uid);
    assert UserOf(h, m.uid) in user;
    if m.medal != 0 {
      MedalsListedOnce(h, user, medal, m.uid, m.medal);
      assert MedalBy(m.uid, m.medal)(e);
    }
  }

  lemma {:induction false} MessageEvent(h: seq<Event>, kind: Kind, m: Message) returns (e: Event)
    requires m in Messages(h, kind)
    ensures e in h && e.kind == kind && e.message == m
  {
    e := h[|h| - 1];
    if e.kind != kind || e.message != m {
      e := MessageEvent(h[..|h| - 1], kind, m);
    }
  }

  ghost predicate Parsed(e: Event) {
    exists json :: e == Parse(e.kind, json)
  }

  lemma {:induction false} AttrsParsed(kind: Kind, attrs: seq<Attr>, e: Event)
    requires e in EventsOf(kind, attrs)
    ensures Parsed(e)
  {
    var last := attrs[|attrs| - 1];
    if e in EventsOf(kind, attrs[..|attrs| - 1]) {
      AttrsParsed(kind, attrs[..|attrs| - 1], e);
    } else {
      assert e == Parse(e.kind, last.json);
    }
  }

  lemma {:induction false} HistoryParsed(tokens: seq<Token>, e: Event)
    requires e in History(tokens)
    ensures Parsed(e)
  {
    var last := tokens[|tokens| - 1];
    if e in History(tokens[..|tokens| - 1]) {
      HistoryParsed(tokens[..|tokens| - 1], e);
    } else {
      AttrsParsed(KindOf(last.element).value, last.attrs, e);
    }
  }

  // ---- what the first-match switch loses ---------------------------------------------

  /** The right-biased merge of a record: every field present replaces the old one. */
  function Merged(info: User, seen: User): User {
    UserMeta.Fill(seen, info)
  }

  function Count(seen: User): nat {
    (if seen.face != None then 1 else 0) + (if seen.level != None then 1 else 0) +
        (if seen.wealth != None then 1 else 0)
  }

  /** updateUser merges a record without loss, whatever was known before, exactly when the
      record carries at most one optional field. */
  lemma SwitchMergesIff(seen: User)
    ensures (forall info: User :: Overlaid(info, seen) == Merged(info, seen)) <==> Count(seen) <= 1
  {
    var blank := BLANK;
    if Count(seen) > 1 {
      assert Overlaid(blank, seen) != Merged(blank, seen);
    }
  }

  /** No level ever reaches the output: only a super chat carries one, and it has a face too. */
  lemma LevelNeverListed(tokens: seq<Token>, user: seq<User>, medal: seq<Medal>, u: User)
    requires Output(History(tokens), user, medal) && u in user
    ensures u.level == None
  {
    UsersListed(History(tokens), user, medal, u.uid);
    LevelNeverKept(tokens, u.uid);
  }

  lemma LevelNeverKept(tokens: seq<Token>, uid: uint64)
    ensures UserOf(History(tokens), uid).level == None
  {
    var h := History(tokens);
    if Latest(h, LevelBy(uid)) != None {
      LatestAsks(h, LevelBy(uid));
      HistoryParsed(tokens, Latest(h, LevelBy(uid)).value);
    }
  }

  /** A user's wealth level is listed exactly when some gift of theirs had one and no face, and
      it is that of the last such gift. */
  lemma {:induction false} WealthListedIff(tokens: seq<Token>, user: seq<User>, medal: seq<Medal>, u: User)
    requires Output(History(tokens), user, medal) && u in user
    ensures u.wealth == None <==> forall i :: 0 <= i < |History(tokens)| ==> !FacelessGift(History(tokens)[i], u.uid)
    ensures forall i :: LastFacelessGift(History(tokens), u.uid, i) ==> u.wealth == History(tokens)[i].user.wealth
  {
    UsersListed(History(tokens), user, medal, u.uid);
    WealthKeptIff(tokens, u.uid);
  }

  lemma WealthKeptIff(tokens: seq<Token>, uid: uint64)
    ensures UserOf(History(tokens), uid).wealth == None <==>
            forall i :: 0 <= i < |History(tokens)| ==> !FacelessGift(History(tokens)[i], uid)
    ensures forall i :: LastFacelessGift(History(tokens), uid, i) ==>
            UserOf(History(tokens), uid).wealth == History(tokens)[i].user.wealth
  {
    var h := History(tokens);
    LatestIsLast(h, WealthBy(uid));
    forall i | 0 <= i < |h| ensures WealthBy(uid)(h[i]) <==> FacelessGift(h[i], uid) {
      WealthIsGift(tokens, h[i], uid);
    }
    if Latest(h, WealthBy(uid)) != None {
      LatestAsks(h, WealthBy(uid));
    }
    forall i | LastFacelessGift(h, uid, i) ensures IsLatest(h, WealthBy(uid), i) {
    }
  }

  lemma WealthIsGift(tokens: seq<Token>, e: Event, uid: uint64)
    requires e in History(tokens)
    ensures WealthBy(uid)(e) <==> FacelessGift(e, uid)
  {
    HistoryParsed(tokens, e);
  }

  ghost predicate LastFacelessGift(h: seq<Event>, uid: uint64, i: int) {
    0 <= i < |h| && FacelessGift(h[i], uid) && forall j :: i < j < |h| ==> !FacelessGift(h[j], uid)
  }

  predicate FacelessGift(e: Event, uid: uint64) {
    e.kind == Gift && e.user.uid == uid && e.user.wealth != None && e.user.face == None
  }

  // ---- which element feeds what ----------------------------------------------------------

  ghost function RawsOf(attrs: seq<Attr>): seq<Json> {
    if attrs == [] then []
    else
      var last := attrs[|attrs| - 1];
      RawsOf(attrs[..|attrs| - 1]) + if last.name == "raw" then [last.json] else []
  }

  /** The raw texts in the elements of a name, in order. */
  ghost function RawsIn(tokens: seq<Token>, element: string): seq<Json> {
    if tokens == [] then []
    else
      var last := tokens[|tokens| - 1];
      RawsIn(tokens[..|tokens| - 1], element) +
      if last.Start? && last.element == element then RawsOf(last.attrs) else []
  }

  /** A message for every raw text: its user, the room of the medal if one can be worn, its body. */
  ghost function MessagesFrom(raws: seq<Json>, medals: bool): seq<Message> {
    if raws == [] then []
    else
      var json := raws[|raws| - 1];
      MessagesFrom(raws[..|raws| - 1], medals) +
      [Message(json.uid, if medals && json.medal.Some? then json.medal.value.roomUid else 0, json.body)]
  }

  lemma {:induction false} MessagesFromConcat(a: seq<Json>, b: seq<Json>, medals: bool)
    ensures MessagesFrom(a + b, medals) == MessagesFrom(a, medals) + MessagesFrom(b, medals)
  {
    if b == [] {
      assert a + b == a;
    } else {
      MessagesFromConcat(a, b[..|b| - 1], medals);
      assert (a + b)[..|a + b| - 1] == a + b[..|b| - 1];
    }
  }

  lemma {:induction false} MessagesConcat(a: seq<Event>, b: seq<Event>, kind: Kind)
    ensures Messages(a + b, kind) == Messages(a, kind) + Messages(b, kind)
  {
    if b == [] {
      assert a + b == a;
    } else {
      MessagesConcat(a, b[..|b| - 1], kind);
      assert (a + b)[..|a + b| - 1] == a + b[..|b| - 1];
    }
  }

  lemma {:induction false} MessagesOfElement(of: Kind, attrs: seq<Attr>, kind: Kind)
    ensures Messages(EventsOf(of, attrs), kind) == if of == kind then MessagesFrom(RawsOf(attrs), kind != Guard) else []
  {
    if attrs == [] {
    } else {
      var front, last := attrs[..|attrs| - 1], attrs[|attrs| - 1];
      MessagesOfElement(of, front, kind);
      if last.name == "raw" {
        MessagesStep(EventsOf(of, front), Parse(of, last.json), kind);
        assert (RawsOf(front) + [last.json])[..|RawsOf(front)|] == RawsOf(front);
      } else {
        assert EventsOf(of, front) + [] == EventsOf(of, front) && RawsOf(front) + [] == RawsOf(front);
      }
    }
  }

  /** The element of each kind of message. */
  lemma ElementsOfKinds(element: string)
    ensures KindOf(element) == Some(Damaku) <==> element == "d"
    ensures KindOf(element) == Some(Gift) <==> element == "gift"
    ensures KindOf(element) == Some(SuperChat) <==> element == "sc"
    ensures KindOf(element) == Some(Guard) <==> element == "guard"
  {
    assert |"d"| == 1 && |"gift"| == 4 && |"sc"| == 2 && |"guard"| == 5;
  }

  lemma {:induction false} ListOfElement(tokens: seq<Token>, kind: Kind, element: string)
    requires forall e :: KindOf(e) == Some(kind) <==> e == element
    ensures Messages(History(tokens), kind) == MessagesFrom(RawsIn(tokens, element), kind != Guard)
  {
    if tokens == [] {
    } else {
      var front, last := tokens[..|tokens| - 1], tokens[|tokens| - 1];
      ListOfElement(front, kind, element);
      MessagesConcat(History(front), Events(last), kind);
      if last.Start? {
        assert KindOf(last.element) == Some(kind) <==> last.element == element;
        if KindOf(last.element) != None {
          MessagesOfElement(KindOf(last.element).value, last.attrs, kind);
        }
        if last.element == element {
          MessagesFromConcat(RawsIn(front, element), RawsOf(last.attrs), kind != Guard);
        } else {
          assert RawsIn(front, element) + [] == RawsIn(front, element);
        }
      } else {
        assert RawsIn(front, element) + [] == RawsIn(front, element);
      }
    }
  }

  /** Which element feeds which list: danmaku come from "d", gifts from "gift", super chats from
      "sc" and guards, without a medal, from "guard"; one message for each attribute "raw". */
  lemma {:induction false} ListsByElement(tokens: seq<Token>)
    ensures Messages(History(tokens), Damaku) == MessagesFrom(RawsIn(tokens, "d"), true)
    ensures Messages(History(tokens), Gift) == MessagesFrom(RawsIn(tokens, "gift"), true)
    ensures Messages(History(tokens), SuperChat) == MessagesFrom(RawsIn(tokens, "sc"), true)
    ensures Messages(History(tokens), Guard) == MessagesFrom(RawsIn(tokens, "guard"), false)
  {
    forall e: string {
      ElementsOfKinds(e);
    }
    ListOfElement(tokens, Damaku, "d");
    ListOfElement(tokens, Gift, "gift");
    ListOfElement(tokens, SuperChat, "sc");
    ListOfElement(tokens, Guard, "guard");
  }

  /** What each parser takes from the text for the user. */
  lemma ParsedUser(kind: Kind, json: Json)
    ensures var user := Parse(kind, json).user;
            && user.uid == json.uid && user.name == json.name
            && (user.face == Some(json.face) || (user.face == None && (json.face == "" || kind == Guard)))
            && (kind == Guard ==> user.face == None)
            && (kind == SuperChat ==> user.face == Some(json.face) && user.level == Some(json.level % 4294967296))
            && (kind != SuperChat ==> user.level == None && user.face != Some(""))
            && (user.wealth == if kind == Gift && json.wealth != 0 then Some(json.wealth % 4294967296) else None)
  {
  }

  /** What each parser takes from the text for the medal. */
  lemma ParsedMedal(kind: Kind, json: Json)
    ensures kind == Guard <==> Parse(kind, json).medal == None
    ensures kind != Guard ==> Parse(kind, json).medal.value.uid == json.uid
    ensures kind != Guard && json.medal == None ==> Parse(kind, json).medal.value.roomUid == 0
    ensures kind != Guard && json.medal != None ==>
              var m, j := Parse(kind, json).medal.value, json.medal.value;
              && m.roomUid == j.roomUid && m.name == j.name && m.light == j.light
              && m.level == j.level % 4294967296
              && (m.guardLevel - j.guardLevel as int) % 4294967296 == 0
              && -2147483648 <= m.guardLevel < 2147483648
  {
  }

  ghost predicate RawOf(tokens: seq<Token>, element: string, uid: uint64) {
    exists i :: 0 <= i < |RawsIn(tokens, element)| && RawsIn(tokens, element)[i].uid == uid
  }

  ghost predicate KindSeen(h: seq<Event>, kind: Kind, uid: uint64) {
    exists e :: e in h && e.kind == kind && e.message.uid == uid
  }

  ghost predicate Mentioned(ms: seq<Message>, uid: uint64) {
    exists i :: 0 <= i < |ms| && ms[i].uid == uid
  }

  lemma MentionedAppend(ms: seq<Message>, m: Message, uid: uint64)
    ensures Mentioned(ms + [m], uid) <==> Mentioned(ms, uid) || m.uid == uid
  {
    var all := ms + [m];
    assert all[|ms|] == m;
    if i :| 0 <= i < |ms| && ms[i].uid == uid {
      assert all[i].uid == uid;
    }
  }

  lemma {:induction false} UserOfMessages(h: seq<Event>, kind: Kind, uid: uint64)
    ensures KindSeen(h, kind, uid) <==> Mentioned(Messages(h, kind), uid)
  {
    if h == [] {
    } else {
      var front, last := h[..|h| - 1], h[|h| - 1];
      UserOfMessages(front, kind, uid);
      assert h == front + [last];
      assert KindSeen(h, kind, uid) <==> KindSeen(front, kind, uid) || (last.kind == kind && last.message.uid == uid);
      if last.kind == kind {
        MentionedAppend(Messages(front, kind), last.message, uid);
      } else {
        assert Messages(front, kind) + [] == Messages(front, kind);
      }
    }
  }

  lemma {:induction false} UidsOfMessages(raws: seq<Json>, medals: bool)
    ensures |MessagesFrom(raws, medals)| == |raws|
    ensures forall i :: 0 <= i < |raws| ==> MessagesFrom(raws, medals)[i].uid == raws[i].uid
  {
    if raws == [] {
    } else {
      UidsOfMessages(raws[..|raws| - 1], medals);
    }
  }

  /** A user is listed exactly if some raw text of one of the four elements has that user. */
  lemma {:induction false} UsersByElement(tokens: seq<Token>, user: seq<User>, medal: seq<Medal>, uid: uint64)
    requires Output(History(tokens), user, medal)
    ensures UserOf(History(tokens), uid) in user <==>
            RawOf(tokens, "d", uid) || RawOf(tokens, "gift", uid) || RawOf(tokens, "sc", uid) ||
            RawOf(tokens, "guard", uid)
  {
    UsersListed(History(tokens), user, medal, uid);
    SeenByElement(tokens, uid);
  }

  lemma SeenByElement(tokens: seq<Token>, uid: uint64)
    ensures (exists e :: e in History(tokens) && e.user.uid == uid) <==>
            RawOf(tokens, "d", uid) || RawOf(tokens, "gift", uid) || RawOf(tokens, "sc", uid) ||
            RawOf(tokens, "guard", uid)
  {
    var h := History(tokens);
    forall e | e in h ensures e.message.uid == e.user.uid {
      HistoryParsed(tokens, e);
    }
    SeenByKind(h, uid);
    ListsByElement(tokens);
    KindSeenIff(tokens, Damaku, "d", true, uid);
    KindSeenIff(tokens, Gift, "gift", true, uid);
    KindSeenIff(tokens, SuperChat, "sc", true, uid);
    KindSeenIff(tokens, Guard, "guard", false, uid);
  }

  lemma SeenByKind(h: seq<Event>, uid: uint64)
    requires forall e :: e in h ==> e.message.uid == e.user.uid
    ensures (exists e :: e in h && e.user.uid == uid) <==>
            KindSeen(h, Damaku, uid) || KindSeen(h, Gift, uid) || KindSeen(h, SuperChat, uid) || KindSeen(h, Guard, uid)
  {
    if e :| e in h && e.user.uid == uid {
      assert e.kind == Damaku || e.kind == Gift || e.kind == SuperChat || e.kind == Guard;
    }
  }

  lemma KindSeenIff(tokens: seq<Token>, kind: Kind, element: string, medals: bool, uid: uint64)
    requires Messages(History(tokens), kind) == MessagesFrom(RawsIn(tokens, element), medals)
    ensures KindSeen(History(tokens), kind, uid) <==> RawOf(tokens, element, uid)
  {
    var raws := RawsIn(tokens, element);
    UserOfMessages(History(tokens), kind, uid);
    UidsOfMessages(raws, medals);
    if i :| 0 <= i < |raws| && raws[i].uid == uid {
      assert MessagesFrom(raws, medals)[i].uid == uid;
    }
  }
}
