/**
  Recruiter registration and login (server/controllers/recruiterController.js).
  Password hashing, hash comparison and token signing are opaque functions
  supplied by the caller; the random salt of each hash is a parameter.
 */
module RecruiterController {
  import opened Wrappers
  import opened Models
  import opened Store
  import Uploads
  import Seqs

  const AlreadyRegistered := "Recruiter already exists with this email"
  const InvalidCredentials := "Invalid email or password"

  /** The claims a token is signed over. */
  datatype Claims = Claims(id: string, email: string)

  /** The password hashing and token signing services. */
  datatype Crypto = Crypto(
    hash: (string, nat) -> string,
    compare: (string, string) -> bool,
    sign: Claims -> string)

  /** The one assumption made of the hashing service: a password matches its own hash. */
  ghost predicate Sound(c: Crypto) {
    forall password, salt :: c.compare(password, c.hash(password, salt))
  }

  /** What a client learns about a recruiter: no password field exists here. */
  datatype Summary = Summary(id: string, name: string, email: string, image: string)

  datatype Session = Session(token: string, recruiter: Summary)

  function SummaryOf(r: Recruiter): (sm: Summary)
    ensures sm.id == r.id && sm.name == r.name && sm.email == r.email && sm.image == r.image
  {
    Summary(r.id, r.name, r.email, r.image)
  }

  function SessionFor(c: Crypto, r: Recruiter): (ses: Session)
    ensures ses.token == c.sign(Claims(r.id, r.email))
    ensures ses.recruiter == SummaryOf(r)
  {
    Session(c.sign(Claims(r.id, r.email)), SummaryOf(r))
  }

  datatype RegisterRequest = RegisterRequest(name: string, email: string, password: string)

  /** `POST /api/recruiter/register`, after the logo upload middleware. The
      duplicate-email check comes first; a logo, when given, is stored before
      the record is created; `uploaded` is whether the object store accepted it.
      `logoMillis` and `now` are the two separate clock readings that name the
      logo and date the record. */
  function RegisterRecruiter(s: Store, req: RegisterRequest, logo: Option<Uploads.UploadedFile>,
                             c: Crypto, salt: nat, cfg: Uploads.StorageConfig, logoMillis: nat, now: nat,
                             newId: string, uploaded: bool): (r: Outcome<Session>)
    ensures FindRecruiterByEmail(s.recruiters, req.email).Some? ==>
              r == Outcome(ClientError(400, AlreadyRegistered), s)
    ensures !r.response.Success? ==> r.store == s
    ensures FindRecruiterByEmail(s.recruiters, req.email).None? && !r.response.Success? ==> r.response.ServerError?
    ensures r.response.Success? <==>
              && FindRecruiterByEmail(s.recruiters, req.email).None?
              && (logo.Some? ==> uploaded)
              && Present(req.name) && Present(req.email) && Present(c.hash(req.password, salt))
              && !RecruiterIdTaken(s.recruiters, newId)
    ensures r.response.Success? ==>
              var image := if logo.None? then ""
                           else Uploads.ObjectUrl(cfg, Uploads.LogoKey(logoMillis, logo.value.originalName));
              var rec := Recruiter(newId, req.name, req.email, c.hash(req.password, salt), image, now);
              && r.store == s.(recruiters := s.recruiters + [rec])
              && r.response.value == Session(c.sign(Claims(newId, req.email)), Summary(newId, req.name, req.email, image))
    ensures Valid(s) ==> Valid(r.store)
  {
    if FindRecruiterByEmail(s.recruiters, req.email).Some? then Outcome(ClientError(400, AlreadyRegistered), s)
    else
      var hashed := c.hash(req.password, salt);
      if logo.Some? && !uploaded then Outcome(ServerError(StorageUnavailable), s)
      else
        var image := if logo.None? then "" else Uploads.ObjectUrl(cfg, Uploads.LogoKey(logoMillis, logo.value.originalName));
        var created := InsertRecruiter(s, NewRecruiter(newId, req.name, req.email, hashed, image, None, now));
        match created.response
        case Success(rec) => Outcome(Success(SessionFor(c, rec)), created.store)
        case ClientError(status, message) => Outcome(ClientError(status, message), created.store)
        case ServerError(fault) => Outcome(ServerError(fault), created.store)
  }

  datatype LoginRequest = LoginRequest(email: string, password: string)

  /** `POST /api/recruiter/login`. */
  function LoginRecruiter(s: Store, req: LoginRequest, c: Crypto): (r: Outcome<Session>)
    ensures r.store == s
    ensures r.response.Success? <==>
              exists k :: 0 <= k < |s.recruiters| && s.recruiters[k].email == req.email &&
                          c.compare(req.password, FindRecruiterByEmail(s.recruiters, req.email).value.password)
    ensures !r.response.Success? ==> r.response == ClientError(400, InvalidCredentials)
    ensures r.response.Success? ==>
              var rec := FindRecruiterByEmail(s.recruiters, req.email).value;
              && rec in s.recruiters && rec.email == req.email
              && r.response.value == Session(c.sign(Claims(rec.id, rec.email)), SummaryOf(rec))
  {
    match FindRecruiterByEmail(s.recruiters, req.email)
    case None => Outcome(ClientError(400, InvalidCredentials), s)
    case Some(rec) =>
      if !c.compare(req.password, rec.password) then Outcome(ClientError(400, InvalidCredentials), s)
      else Outcome(Success(SessionFor(c, rec)), s)
  }

  /** An unknown email and a wrong password get exactly the same reply. */
  lemma LoginFailuresIndistinguishable(s: Store, c: Crypto, unknown: LoginRequest, wrong: LoginRequest)
    requires forall k :: 0 <= k < |s.recruiters| ==> s.recruiters[k].email != unknown.email
    requires FindRecruiterByEmail(s.recruiters, wrong.email).Some?
    requires !c.compare(wrong.password, FindRecruiterByEmail(s.recruiters, wrong.email).value.password)
    ensures LoginRecruiter(s, unknown, c) == LoginRecruiter(s, wrong, c)
    ensures LoginRecruiter(s, unknown, c).response == ClientError(400, InvalidCredentials)
  {
  }

  /** With a sound hashing service, a recruiter who has just registered can log
      in with the same password and gets a session for the new record. */
  lemma {:induction false} LoginAfterRegister(s: Store, req: RegisterRequest, logo: Option<Uploads.UploadedFile>,
                                              c: Crypto, salt: nat, cfg: Uploads.StorageConfig, logoMillis: nat, now: nat,
                                              newId: string, uploaded: bool)
    requires Sound(c)
    requires RegisterRecruiter(s, req, logo, c, salt, cfg, logoMillis, now, newId, uploaded).response.Success?
    ensures var reg := RegisterRecruiter(s, req, logo, c, salt, cfg, logoMillis, now, newId, uploaded);
            LoginRecruiter(reg.store, LoginRequest(req.email, req.password), c).response == reg.response
  {
    var reg := RegisterRecruiter(s, req, logo, c, salt, cfg, logoMillis, now, newId, uploaded);
    var rs := reg.store.recruiters;
    var k := |s.recruiters|;
    var rec := rs[k];
    assert rs == s.recruiters + [rec];
    FindAppendedRecruiter(s.recruiters, rec);
    assert c.compare(req.password, c.hash(req.password, salt));
  }

  /** Looking up the email of a recruiter appended after all others with different emails finds it. */
  lemma FindAppendedRecruiter(rs: seq<Recruiter>, rec: Recruiter)
    requires FindRecruiterByEmail(rs, rec.email).None?
    ensures FindRecruiterByEmail(rs + [rec], rec.email) == Some(rec)
  {
    Seqs.FindFirstAppended(rs, rec, (r: Recruiter) => r.email == rec.email);
  }

  /** The stored password is the hash of the one supplied, never the supplied one
      unless the hashing service returns its input. */
  lemma StoresOnlyTheHash(s: Store, req: RegisterRequest, logo: Option<Uploads.UploadedFile>,
                          c: Crypto, salt: nat, cfg: Uploads.StorageConfig, logoMillis: nat, now: nat,
                          newId: string, uploaded: bool)
    requires c.hash(req.password, salt) != req.password
    requires RegisterRecruiter(s, req, logo, c, salt, cfg, logoMillis, now, newId, uploaded).response.Success?
    ensures var rs := RegisterRecruiter(s, req, logo, c, salt, cfg, logoMillis, now, newId, uploaded).store.recruiters;
            rs[|rs| - 1].password == c.hash(req.password, salt) != req.password
  {
  }
}
