/**
 * The tenant store of backend/db.js: one record type per table, the tables as
 * a value, the user and session lookups, and the `Database` object whose
 * methods insert, update and delete rows in place.
 *
 * Money is integer cents, timestamps are integer seconds since 1970-01-01 UTC,
 * and SQLite's `DATE(t)` is the day number `Day(t)`.
 */
module Store {
  import opened Optional
  import opened Seqs

  type UserId = int
  type Cents = int
  type Timestamp = int

  const SecondsPerDay: int := 86400

  /** `DATE(t)`: the UTC calendar day of a timestamp, as days since 1970-01-01. */
  function Day(t: Timestamp): int
  {
    t / SecondsPerDay
  }

  lemma DayBounds(t: Timestamp)
    ensures Day(t) * SecondsPerDay <= t < (Day(t) + 1) * SecondsPerDay
  {
  }

  datatype User = User(
    id: UserId,
    email: string,
    passwordHash: string,
    name: string,
    companyName: Option<string>,
    agentId: string,
    settings: string,
    isActive: bool,
    lastLogin: Option<Timestamp>)

  datatype Product = Product(id: int, userId: UserId, name: string)

  datatype ConversationStatus = Active | Completed | Abandoned

  datatype Conversation = Conversation(id: int, userId: UserId, status: ConversationStatus, startTime: Timestamp)

  datatype SaleStatus = Pending | Confirmed | Cancelled

  datatype Sale = Sale(id: int, userId: UserId, productId: int, totalAmount: Cents, status: SaleStatus, saleDate: Timestamp)

  /** The sum of `total_amount` over a list of sales. */
  function AmountTotal(ss: seq<Sale>): Cents
  {
    if ss == [] then 0 else ss[0].totalAmount + AmountTotal(ss[1..])
  }

  predicate HasStatus(s: Sale, status: SaleStatus) { s.status == status }

  datatype Objection = Objection(id: int, userId: UserId, objectionType: string, wasHandled: bool, timestamp: Timestamp)

  datatype ResolutionStatus = Open | Resolved | Escalated

  datatype ContactReason = ContactReason(id: int, userId: UserId, category: string, resolution: ResolutionStatus, timestamp: Timestamp)

  datatype Session = Session(id: string, userId: UserId, expiresAt: Timestamp, ipAddress: string, userAgent: string)

  /** The contents of the store at one moment. */
  datatype Tables = Tables(
    users: seq<User>,
    products: seq<Product>,
    conversations: seq<Conversation>,
    sales: seq<Sale>,
    objections: seq<Objection>,
    contactReasons: seq<ContactReason>,
    sessions: seq<Session>)

  predicate OwnsProduct(p: Product, k: UserId) { p.userId == k }
  predicate OwnsConversation(c: Conversation, k: UserId) { c.userId == k }
  predicate OwnsSale(s: Sale, k: UserId) { s.userId == k }
  predicate OwnsObjection(o: Objection, k: UserId) { o.userId == k }
  predicate OwnsContact(r: ContactReason, k: UserId) { r.userId == k }
  predicate OwnsSession(s: Session, k: UserId) { s.userId == k }

  /** The part of the store that belongs to tenant `k`: its user row and the rows tagged with its id. */
  function OwnedBy(t: Tables, k: UserId): (o: Tables)
    ensures forall c :: c in o.conversations <==> c in t.conversations && c.userId == k
    ensures forall s :: s in o.sales <==> s in t.sales && s.userId == k
    ensures forall u :: u in o.users <==> u in t.users && u.id == k
    ensures forall p :: p in o.products <==> p in t.products && p.userId == k
    ensures forall b :: b in o.objections <==> b in t.objections && b.userId == k
    ensures forall r :: r in o.contactReasons <==> r in t.contactReasons && r.userId == k
    ensures forall s :: s in o.sessions <==> s in t.sessions && s.userId == k
  {
    Tables(
      Where(t.users, HasId, k),
      Where(t.products, OwnsProduct, k),
      Where(t.conversations, OwnsConversation, k),
      Where(t.sales, OwnsSale, k),
      Where(t.objections, OwnsObjection, k),
      Where(t.contactReasons, OwnsContact, k),
      Where(t.sessions, OwnsSession, k))
  }

  // ------------------------------------------------------------ user lookups

  predicate HasId(u: User, id: UserId) { u.id == id }

  predicate ActiveWithEmail(u: User, email: string) { u.email == email && u.isActive }

  predicate ActiveWithId(u: User, id: UserId) { u.id == id && u.isActive }

  /** `getUserByEmail`: the first active user with this email, if any. */
  function UserByEmail(users: seq<User>, email: string): (r: Option<User>)
    ensures r.Some? ==> r.value in users && r.value.email == email && r.value.isActive
    ensures r.None? <==> forall u :: u in users ==> !(u.email == email && u.isActive)
  {
    var found := Where(users, ActiveWithEmail, email);
    if found == [] then None else Some(found[0])
  }

  /** `getUserById`: the first active user with this id, if any; inactive users are not found. */
  function UserById(users: seq<User>, id: UserId): (r: Option<User>)
    ensures r.Some? ==> r.value in users && r.value.id == id && r.value.isActive
    ensures r.None? <==> forall u :: u in users ==> !(u.id == id && u.isActive)
  {
    var found := Where(users, ActiveWithId, id);
    if found == [] then None else Some(found[0])
  }

  /** `updateUserLastLogin`: stamp `last_login` on every row with this id, and change nothing else. */
  function StampLogin(users: seq<User>, id: UserId, now: Timestamp): (r: seq<User>)
    ensures |r| == |users|
    ensures forall i :: 0 <= i < |users| ==> r[i].id == users[i].id && r[i].email == users[i].email && r[i].isActive == users[i].isActive
    ensures forall i :: 0 <= i < |users| ==> r[i].lastLogin == (if users[i].id == id then Some(now) else users[i].lastLogin)
    ensures forall i :: 0 <= i < |users| ==> r[i].(lastLogin := users[i].lastLogin) == users[i]
  {
    seq(|users|, i requires 0 <= i < |users| => if users[i].id == id then users[i].(lastLogin := Some(now)) else users[i])
  }

  /**
   * Stamping a login does not change who is found by email or by id: the
   * lookup finds a user after the stamp exactly when it found one before,
   * and then the same row, with at most its `last_login` changed.
   */
  lemma StampLoginKeepsLookups(users: seq<User>, id: UserId, now: Timestamp, email: string, other: UserId)
    ensures var before, after := UserByEmail(users, email), UserByEmail(StampLogin(users, id, now), email);
      && after.None? == before.None?
      && (after.Some? ==> after.value.(lastLogin := before.value.lastLogin) == before.value)
    ensures var before, after := UserById(users, other), UserById(StampLogin(users, id, now), other);
      && after.None? == before.None?
      && (after.Some? ==> after.value.(lastLogin := before.value.lastLogin) == before.value)
  {
    StampedSelection(users, id, now, ActiveWithEmail, email);
    StampedSelection(users, id, now, ActiveWithId, other);
  }

  /**
   * A selection that does not look at `last_login` picks, after the stamp,
   * the rows it picked before, each with only `last_login` changed.
   */
  lemma {:induction false} StampedSelection<P>(users: seq<User>, id: UserId, now: Timestamp, sel: (User, P) -> bool, arg: P)
    requires forall u: User, l: Option<Timestamp> :: sel(u.(lastLogin := l), arg) == sel(u, arg)
    ensures var before, after := Where(users, sel, arg), Where(StampLogin(users, id, now), sel, arg);
      |after| == |before| && forall i :: 0 <= i < |before| ==> after[i].(lastLogin := before[i].lastLogin) == before[i]
  {
    if users != [] {
      var r := StampLogin(users, id, now);
      assert r[1..] == StampLogin(users[1..], id, now);
      StampedSelection(users[1..], id, now, sel, arg);
      assert sel(r[0], arg) == sel(users[0], arg) by {
        assert r[0] == users[0].(lastLogin := r[0].lastLogin);
      }
      var before, after := Where(users[1..], sel, arg), Where(r[1..], sel, arg);
      if sel(users[0], arg) {
        assert Where(users, sel, arg) == [users[0]] + before;
        assert Where(r, sel, arg) == [r[0]] + after;
      } else {
        assert Where(users, sel, arg) == before;
        assert Where(r, sel, arg) == after;
      }
    }
  }

  // --------------------------------------------------------------- sessions

  predicate Live(s: Session, now: Timestamp) { s.expiresAt > now }

  predicate IdIsNot(s: Session, id: string) { s.id != id }

  /** The session table after `DELETE ... WHERE expires_at <= CURRENT_TIMESTAMP`. */
  function Unexpired(sessions: seq<Session>, now: Timestamp): (r: seq<Session>)
    ensures forall s :: s in r <==> s in sessions && s.expiresAt > now
    ensures |r| <= |sessions|
  {
    Where(sessions, Live, now)
  }

  /** Sweeping twice at the same moment removes nothing more than sweeping once. */
  lemma UnexpiredIdempotent(sessions: seq<Session>, now: Timestamp)
    ensures Unexpired(Unexpired(sessions, now), now) == Unexpired(sessions, now)
  {
    WhereAbsorb(sessions, Live, now, Live, now);
  }

  /** A sweep followed by a later sweep removes what the later sweep alone removes. */
  lemma UnexpiredLaterSweep(sessions: seq<Session>, now: Timestamp, later: Timestamp)
    requires now <= later
    ensures Unexpired(Unexpired(sessions, now), later) == Unexpired(sessions, later)
  {
    WhereAbsorb(sessions, Live, later, Live, now);
  }

  /** The session table after `DELETE ... WHERE id = ?`. */
  function WithoutSession(sessions: seq<Session>, id: string): (r: seq<Session>)
    ensures forall s :: s in r <==> s in sessions && s.id != id
    ensures |r| <= |sessions|
  {
    Where(sessions, IdIsNot, id)
  }

  /** One row of `user_sessions JOIN users`: the session and the owner's email, name and agent id. */
  datatype SessionInfo = SessionInfo(session: Session, email: string, name: string, agentId: string)

  function OwnerRows(s: Session, owners: seq<User>): (r: seq<SessionInfo>)
    ensures forall info :: info in r <==> info.session == s && exists u :: u in owners && info == SessionInfo(s, u.email, u.name, u.agentId)
  {
    if owners == [] then []
    else
      var u := owners[0];
      assert owners == [u] + owners[1..];
      [SessionInfo(s, u.email, u.name, u.agentId)] + OwnerRows(s, owners[1..])
  }

  /** The rows of the `getSession` join, sessions in the outer loop. */
  function SessionRows(sessions: seq<Session>, users: seq<User>, id: string, now: Timestamp): (r: seq<SessionInfo>)
    ensures forall info :: info in r ==>
      && info.session in sessions && info.session.id == id && info.session.expiresAt > now
      && exists u :: u in users && u.id == info.session.userId && info == SessionInfo(info.session, u.email, u.name, u.agentId)
    ensures forall s, u :: s in sessions && s.id == id && s.expiresAt > now && u in users && u.id == s.userId ==>
      SessionInfo(s, u.email, u.name, u.agentId) in r
  {
    if sessions == [] then []
    else
      var s := sessions[0];
      var here := if s.id == id && s.expiresAt > now then OwnerRows(s, Where(users, HasId, s.userId)) else [];
      assert sessions == [s] + sessions[1..];
      here + SessionRows(sessions[1..], users, id, now)
  }

  /**
   * `getSession`: the first joined row for this id, found only while
   * `expires_at > now` and while a user row with the owner's id exists.
   * Whether that user is active is not checked.
   */
  function GetSession(sessions: seq<Session>, users: seq<User>, id: string, now: Timestamp): (r: Option<SessionInfo>)
    ensures r.Some? ==> r.value.session in sessions && r.value.session.id == id && r.value.session.expiresAt > now
    ensures r.Some? ==> exists u :: u in users && u.id == r.value.session.userId && r.value.email == u.email
    ensures r.None? <==> forall s, u :: s in sessions && s.id == id && u in users && u.id == s.userId ==> s.expiresAt <= now
  {
    var rows := SessionRows(sessions, users, id, now);
    if rows == [] then None
    else
      assert rows[0] in rows;
      Some(rows[0])
  }

  /** An expired session is never returned, whatever else the tables hold. */
  lemma ExpiredSessionNotFound(sessions: seq<Session>, users: seq<User>, id: string, now: Timestamp)
    requires forall s :: s in sessions && s.id == id ==> s.expiresAt <= now
    ensures GetSession(sessions, users, id, now) == None
  {
  }

  /** After the sweep, every session that can still be looked up is one the sweep kept. */
  lemma SweptSessionNotFound(sessions: seq<Session>, users: seq<User>, id: string, now: Timestamp, later: Timestamp)
    requires now <= later
    requires forall s :: s in sessions && s.id == id ==> s.expiresAt <= now
    ensures GetSession(Unexpired(sessions, now), users, id, later) == None
  {
  }

  // ------------------------------------------------------------ the database

  /**
   * The database object: its tables, changed in place by the insert, update
   * and delete methods, and the next row id SQLite will give a new user.
   */
  class Database {
    var users: seq<User>
    var products: seq<Product>
    var conversations: seq<Conversation>
    var sales: seq<Sale>
    var objections: seq<Objection>
    var contactReasons: seq<ContactReason>
    var sessions: seq<Session>
    var nextUserId: UserId

    /** The table constraints: primary keys on users and sessions, and the unique user email. */
    ghost predicate Valid()
      reads this
    {
      && (forall i, j :: 0 <= i < j < |users| ==> users[i].id != users[j].id && users[i].email != users[j].email)
      && (forall u :: u in users ==> u.id < nextUserId)
      && DistinctBy(sessions, SessionKey)
    }

    function Snapshot(): (t: Tables)
      reads this
      ensures t.users == users && t.sessions == sessions
    {
      Tables(users, products, conversations, sales, objections, contactReasons, sessions)
    }

    constructor ()
      ensures Valid()
      ensures Snapshot() == Tables([], [], [], [], [], [], [])
      ensures nextUserId == 1
    {
      users, products, conversations, sales := [], [], [], [];
      objections, contactReasons, sessions := [], [], [];
      nextUserId := 1;
    }

    /**
     * `createUser`: insert an active user with no last login under the next
     * row id; the insert fails, changing nothing, when the email is taken by
     * any user, active or not.
     */
    method CreateUser(email: string, passwordHash: string, name: string, companyName: Option<string>, agentId: string, settings: string)
      returns (id: Option<UserId>)
      requires Valid()
      modifies this
      ensures Valid()
      ensures id.None? <==> exists u :: u in old(users) && u.email == email
      ensures id.None? ==> users == old(users) && nextUserId == old(nextUserId)
      ensures id.Some? ==>
        && id.value == old(nextUserId)
        && users == old(users) + [User(id.value, email, passwordHash, name, companyName, agentId, settings, true, None)]
        && nextUserId == old(nextUserId) + 1
      ensures products == old(products) && conversations == old(conversations) && sales == old(sales)
      ensures objections == old(objections) && contactReasons == old(contactReasons) && sessions == old(sessions)
    {
      if exists u :: u in users && u.email == email {
        return None;
      }
      var user := User(nextUserId, email, passwordHash, name, companyName, agentId, settings, true, None);
      users := users + [user];
      id := Some(nextUserId);
      nextUserId := nextUserId + 1;
    }

    /** `updateUserLastLogin`: set `last_login` of the user with this id to `now`. */
    method UpdateUserLastLogin(id: UserId, now: Timestamp)
      requires Valid()
      modifies this`users
      ensures Valid()
      ensures users == StampLogin(old(users), id, now)
    {
      users := StampLogin(users, id, now);
    }

    /**
     * `createSession`: insert a session row; the insert fails, changing
     * nothing, when the id is taken or no user has the owner's id.
     */
    method CreateSession(s: Session) returns (ok: bool)
      requires Valid()
      modifies this`sessions
      ensures Valid()
      ensures ok <==> (forall t :: t in old(sessions) ==> t.id != s.id) && exists u :: u in users && u.id == s.userId
      ensures sessions == if ok then old(sessions) + [s] else old(sessions)
    {
      ok := (forall t :: t in sessions ==> t.id != s.id) && exists u :: u in users && u.id == s.userId;
      if ok {
        sessions := sessions + [s];
      }
    }

    /** `deleteSession`: remove the session with this id. */
    method DeleteSession(id: string)
      requires Valid()
      modifies this`sessions
      ensures Valid()
      ensures sessions == WithoutSession(old(sessions), id)
    {
      sessions := WithoutSession(sessions, id);
      WhereKeepsDistinct(old(sessions), IdIsNot, id, SessionKey);
    }

    /** `deleteExpiredSessions`: remove every session whose expiry is not after `now`. */
    method DeleteExpiredSessions(now: Timestamp)
      requires Valid()
      modifies this`sessions
      ensures Valid()
      ensures sessions == Unexpired(old(sessions), now)
    {
      sessions := Unexpired(sessions, now);
      WhereKeepsDistinct(old(sessions), Live, now, SessionKey);
    }
  }

  function SessionKey(s: Session): string { s.id }
  function UserKey(u: User): UserId { u.id }
}
