/**
  The user record and the collection that holds it. The collection is a
  sequence in its natural (insertion) order, which is the order `find`
  returns and the order in which `findOne` meets candidates; identifiers
  come from a counter that stands for the store's generated ids.
*/
module UserModel {
  import opened Wrappers

  type UserId = nat

  /** The `role` enumeration of the schema: 'employee' or 'manager'. */
  datatype Role = Employee | Manager

  function RoleName(r: Role): string {
    match r
    case Employee => "employee"
    case Manager => "manager"
  }

  predicate IsHexDigit(c: char) {
    '0' <= c <= '9' || 'a' <= c <= 'f'
  }

  /** A SHA-256 digest in lower-case hex, as `digest('hex')` produces it: 64 hex digits. */
  type HexDigest = s: string | |s| == 64 && forall k | 0 <= k < |s| :: IsHexDigit(s[k])
    witness seq(64, _ => '0')

  /**
    A stored account. `password` holds the bcrypt hash. `resetToken` is
    None until a reset is first requested and `Some("")` once one was used;
    `resetExpires` is None when no expiry is set.
  */
  datatype User = User(
    id: UserId,
    name: string,
    email: string,
    password: string,
    role: Role,
    department: string,
    adminCode: string,
    resetToken: Option<string>,
    resetExpires: Option<int>)

  /** The fields the listing queries project: 'name email department role _id'. */
  datatype Profile = Profile(id: UserId, name: string, email: string, department: string, role: Role)

  function ProfileOf(u: User): Profile {
    Profile(u.id, u.name, u.email, u.department, u.role)
  }

  datatype Table = Table(rows: seq<User>, nextId: UserId)

  /** Ids are unique and below the counter, and the unique index on `email` holds. */
  predicate WellFormed(t: Table) {
    && (forall k | 0 <= k < |t.rows| :: t.rows[k].id < t.nextId)
    && (forall a, b | 0 <= a < b < |t.rows| :: t.rows[a].id != t.rows[b].id)
    && (forall a, b | 0 <= a < b < |t.rows| :: t.rows[a].email != t.rows[b].email)
  }

  /** `findOne(filter)`: the position of the first record the filter accepts. */
  function FindOne(rows: seq<User>, filter: User -> bool): (r: Option<nat>)
    ensures r.Some? ==> r.value < |rows| && filter(rows[r.value])
    ensures r.Some? ==> forall k | 0 <= k < r.value :: !filter(rows[k])
    ensures r.None? <==> forall k | 0 <= k < |rows| :: !filter(rows[k])
  {
    if rows == [] then
      None
    else if filter(rows[0]) then
      Some(0)
    else
      match FindOne(rows[1..], filter)
      case None => None
      case Some(k) => Some(k + 1)
  }

  function FindById(rows: seq<User>, id: UserId): Option<nat> {
    FindOne(rows, (u: User) => u.id == id)
  }

  function FindByEmail(rows: seq<User>, email: string): Option<nat> {
    FindOne(rows, (u: User) => u.email == email)
  }

  /** In a well-formed table the lookup by id finds the one record carrying it. */
  lemma FindByIdExact(t: Table, k: int)
    requires WellFormed(t) && 0 <= k < |t.rows|
    ensures FindById(t.rows, t.rows[k].id) == Some(k)
  {
  }

  /** In a well-formed table the lookup by email finds the one record carrying it. */
  lemma FindByEmailExact(t: Table, k: int)
    requires WellFormed(t) && 0 <= k < |t.rows|
    ensures FindByEmail(t.rows, t.rows[k].email) == Some(k)
  {
  }

  /** The reset life cycle of a record: no usable reset, or a stored digest with its deadline. */
  datatype ResetState = NoReset | Pending(digest: string, expiresAt: int)

  function ResetStateOf(u: User): ResetState {
    match (u.resetToken, u.resetExpires)
    case (Some(d), Some(t)) => if d == "" then NoReset else Pending(d, t)
    case _ => NoReset
  }

  /** The reset query: the stored token equals `digest` and the deadline is strictly after `now`. */
  predicate ResetMatches(u: User, digest: string, now: int) {
    u.resetToken == Some(digest) && u.resetExpires.Some? && u.resetExpires.value > now
  }

  /** For a real digest the query matches exactly the records pending with that digest and a later deadline. */
  lemma ResetMatchesIffPending(u: User, digest: HexDigest, now: int)
    ensures ResetMatches(u, digest, now) <==> ResetStateOf(u).Pending? && ResetStateOf(u).digest == digest && ResetStateOf(u).expiresAt > now
  {
  }
}
