/** The session store: who is logged in, until when, which advice forms the
    role may use, and the recent submissions. The current time is a parameter
    and persistence to local storage is not modelled. */
module AuthStore {
  import opened Basics

  datatype UserRole = RA | IA | TMS

  /** How a role is written (`'RA'`, `'IA'`, `'TMS'`). */
  function RoleName(r: UserRole): string {
    match r
    case RA => "RA"
    case IA => "IA"
    case TMS => "TMS"
  }

  /** An entry of `ADVICE_TYPES`; the description and icon are display text
      and are not modelled. */
  datatype AdviceType = AdviceType(id: string, name: string, path: string, roles: seq<UserRole>)

  const Strategy: AdviceType := AdviceType("strategy", "Strategy Advice", "/advice/strategy", [RA, IA])
  const SingleStock: AdviceType := AdviceType("singlestock", "Single Stock Advice", "/advice/singlestock", [RA, IA])
  const Portfolio: AdviceType := AdviceType("portfolio", "Portfolio Advice", "/advice/portfolio", [RA, IA])
  const Intraday: AdviceType := AdviceType("intraday", "Intraday Advice", "/advice/intraday", [RA, IA])
  const Derivative: AdviceType := AdviceType("derivative", "Derivative Advice", "/advice/derivative", [RA, IA])
  const AlgoInput: AdviceType := AdviceType("algoinput", "Algo Input", "/advice/algoinput", [TMS])

  /** The advice forms analysts and advisers fill in. */
  const AnalystAdviceTypes: seq<AdviceType> := [Strategy, SingleStock, Portfolio, Intraday, Derivative]

  /** `ADVICE_TYPES`, in table order. */
  const AdviceTypes: seq<AdviceType> := AnalystAdviceTypes + [AlgoInput]

  datatype SubmissionStatus = Success | Failure | Pending

  datatype Submission = Submission(id: string, adviceType: string, adviceName: string,
                                   timestamp: int, status: SubmissionStatus, message: Option<string>)

  /** A session lasts eight hours, in milliseconds. */
  const SessionLength: int := 8 * 60 * 60 * 1000

  /** At most this many submissions are remembered. */
  const MaxSubmissions: nat := 20

  /** `isTokenExpired` over a stored expiry: a missing expiry, or one of 0
      (which JavaScript treats as false), counts as expired; otherwise the
      token expires strictly after the expiry instant. */
  function TokenExpired(expiry: Option<int>, now: int): (r: bool)
    ensures expiry.None? ==> r
    ensures expiry == Some(0) ==> r
    ensures expiry.Some? && expiry.value != 0 ==> (r <==> now > expiry.value)
  {
    if expiry.None? || expiry.value == 0 then true else now > expiry.value
  }

  /** A session opened at a (non-negative) time `start` is live up to and
      including `start + 28 800 000` and expired from the next millisecond. */
  lemma SessionExpiry(start: int, now: int)
    requires start >= 0
    ensures TokenExpired(Some(start + SessionLength), now) <==> now > start + 28_800_000
  {
  }

  /** `getAvailableAdviceTypes` for a role: nothing without a role, otherwise
      the table entries listing the role, in table order. */
  function AvailableAdviceTypes(role: Option<UserRole>): (r: seq<AdviceType>)
    ensures role.None? ==> r == []
    ensures forall a :: a in r <==> a in AdviceTypes && role.Some? && role.value in a.roles
  {
    if role.None? then []
    else Filter(AdviceTypes, (a: AdviceType) => role.value in a.roles)
  }

  /** A trading member gets only the algo form. */
  lemma TradingMemberAdviceTypes()
    ensures AvailableAdviceTypes(Some(TMS)) == [AlgoInput]
  {
    var p := (a: AdviceType) => TMS in a.roles;
    FilterAppend(AnalystAdviceTypes, [AlgoInput], p);
    FilterNone(AnalystAdviceTypes, p);
    assert Filter([AlgoInput], p) == [AlgoInput];
  }

  /** Analysts and advisers get the other five forms, in table order. */
  lemma AnalystAdviceTypesByRole(role: UserRole)
    requires role != TMS
    ensures AvailableAdviceTypes(Some(role)) == AnalystAdviceTypes
  {
    var p := (a: AdviceType) => role in a.roles;
    FilterAppend(AnalystAdviceTypes, [AlgoInput], p);
    FilterAll(AnalystAdviceTypes, p);
    assert Filter([AlgoInput], p) == [];
  }

  /** The zustand store, one field per piece of state. */
  class Session {
    var token: Option<string>
    var role: Option<UserRole>
    var username: Option<string>
    var isAuthenticated: bool
    var tokenExpiry: Option<int>
    var submissions: seq<Submission>

    /** A session is either fully logged in or fully logged out, and keeps at
        most twenty submissions. */
    ghost predicate Valid()
      reads this
    {
      (isAuthenticated <==> token.Some?) &&
      (isAuthenticated <==> role.Some?) &&
      (isAuthenticated <==> username.Some?) &&
      (isAuthenticated <==> tokenExpiry.Some?) &&
      |submissions| <= MaxSubmissions
    }

    /** The initial state: logged out, no submissions. */
    constructor()
      ensures Valid()
      ensures token == None && role == None && username == None
      ensures !isAuthenticated && tokenExpiry == None && submissions == []
    {
      token, role, username := None, None, None;
      isAuthenticated, tokenExpiry := false, None;
      submissions := [];
    }

    /** `setAuth` at time `now`: logs in for eight hours. */
    method SetAuth(newToken: string, newRole: UserRole, newUsername: string, now: int)
      requires Valid()
      modifies this
      ensures Valid()
      ensures token == Some(newToken) && role == Some(newRole) && username == Some(newUsername)
      ensures isAuthenticated && tokenExpiry == Some(now + SessionLength)
      ensures submissions == old(submissions)
    {
      token, role, username := Some(newToken), Some(newRole), Some(newUsername);
      isAuthenticated := true;
      tokenExpiry := Some(now + SessionLength);
    }

    /** `logout`: forgets the session but keeps the submissions. */
    method Logout()
      requires Valid()
      modifies this
      ensures Valid()
      ensures token == None && role == None && username == None
      ensures !isAuthenticated && tokenExpiry == None
      ensures submissions == old(submissions)
    {
      token, role, username := None, None, None;
      isAuthenticated, tokenExpiry := false, None;
    }

    /** `isTokenExpired` at time `now`. */
    function IsTokenExpired(now: int): (r: bool)
      reads this
      ensures !isAuthenticated && Valid() ==> r
    {
      TokenExpired(tokenExpiry, now)
    }

    /** `getAvailableAdviceTypes`. */
    function GetAvailableAdviceTypes(): (r: seq<AdviceType>)
      reads this
      ensures !isAuthenticated && Valid() ==> r == []
    {
      AvailableAdviceTypes(role)
    }

    /** `addSubmission`: the newest first, at most twenty kept. */
    method AddSubmission(s: Submission)
      requires Valid()
      modifies this
      ensures Valid()
      ensures submissions == PrependCapped(s, old(submissions), MaxSubmissions)
      ensures token == old(token) && role == old(role) && username == old(username)
      ensures isAuthenticated == old(isAuthenticated) && tokenExpiry == old(tokenExpiry)
    {
      submissions := PrependCapped(s, submissions, MaxSubmissions);
    }

    /** `clearSubmissions`: empties the list and nothing else. */
    method ClearSubmissions()
      requires Valid()
      modifies this
      ensures Valid()
      ensures submissions == []
      ensures token == old(token) && role == old(role) && username == old(username)
      ensures isAuthenticated == old(isAuthenticated) && tokenExpiry == old(tokenExpiry)
    {
      submissions := [];
    }
  }
}
