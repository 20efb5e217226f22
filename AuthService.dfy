/**
 * AuthService: email and PIN sign-in against an authentication backend, with the PIN hash kept in
 * the player's cloud save. The backend and the cloud save are outside the model: their answers are
 * parameters and what is sent to them is logged in `requests`. MD5 and SHA-256 are opaque digest
 * functions given to the service (they take the string; its UTF-8 encoding is folded into them).
 */
module AuthService {
  import opened Wrappers
  import opened Chars

  type Byte = b: int | 0 <= b < 256

  /** The fixed Turkish messages of the service. */
  const EmptyLoginMessage: string := "E-posta ve şifre boş olamaz."
  const EmptyRegisterMessage: string := "Ad, e-posta ve şifre boş olamaz."
  const PinLengthMessage: string := "PIN 6 haneli olmalıdır."
  const ConnectionMessage: string := "Bağlantı hatası. Lütfen internet bağlantınızı kontrol edin."
  const InvalidFormatMessage: string := "Geçersiz e-posta veya şifre formatı."
  const AlreadyRegisteredMessage: string := "Bu e-posta adresi zaten kayıtlı."
  const GenericErrorPrefix: string := "Kimlik doğrulama hatası: "

  /** The suffix that makes a PIN acceptable as a backend password. */
  const PasswordSuffix: string := "Aa1!Miyo"
  const PinLength := 6
  const UsernameLength := 20
  const PinHashKey: string := "PinHash"
  const RealEmailKey: string := "RealEmail"

  datatype AuthResult = Success | Failure(errorMessage: string)

  datatype AuthErrorCode = InvalidParameters | AccountAlreadyLinked | OtherCode(code: int)

  /** How a backend call ends: normally, with an authentication error, or with a failed request. */
  datatype BackendOutcome = Succeeded | AuthFailed(code: AuthErrorCode, message: string) | RequestFailed

  datatype Request =
    | SignIn(username: string, password: string)
    | SignUp(username: string, password: string)
    | SaveCloud(key: string, value: string)
    | LoadCloud(keys: set<string>)
    | UpdatePlayerName(name: string)
    | SignOut
    | ClearSessionToken

  /** ASCII punctuation, the "symbol" class of the backend's password rules. */
  predicate IsSymbol(c: char) {
    ('!' <= c <= '/') || (':' <= c <= '@') || ('[' <= c <= '`') || ('{' <= c <= '~')
  }

  predicate IsLowerHex(c: char) {
    IsDigit(c) || ('a' <= c <= 'f')
  }

  function HexDigit(n: int): (c: char)
    requires 0 <= n < 16
    ensures IsLowerHex(c)
  {
    if n < 10 then ('0' as int + n) as char else ('a' as int + n - 10) as char
  }

  function HexValue(c: char): (n: int)
    requires IsLowerHex(c)
    ensures 0 <= n < 16
    ensures HexDigit(n) == c
  {
    if IsDigit(c) then c as int - '0' as int else c as int - 'a' as int + 10
  }

  /** Byte.ToString("x2"): two lower-case hex digits, the high nibble first. */
  function ByteHex(b: Byte): string {
    [HexDigit(b / 16), HexDigit(b % 16)]
  }

  /** The hex string of a byte sequence, two characters per byte. */
  function ToHex(bytes: seq<Byte>): (s: string)
    ensures |s| == 2 * |bytes|
    ensures forall i :: 0 <= i < |s| ==> IsLowerHex(s[i])
  {
    if bytes == [] then [] else ToHex(bytes[..|bytes| - 1]) + ByteHex(bytes[|bytes| - 1])
  }

  /** Reads a hex string back, two characters per byte. */
  function FromHex(s: string): (bytes: seq<Byte>)
    requires |s| % 2 == 0
    requires forall i :: 0 <= i < |s| ==> IsLowerHex(s[i])
    ensures |bytes| * 2 == |s|
  {
    if s == [] then []
    else FromHex(s[..|s| - 2]) + [HexValue(s[|s| - 2]) * 16 + HexValue(s[|s| - 1])]
  }

  /** One byte's two digits read back give the byte. */
  lemma ByteHexRoundTrip(b: Byte)
    ensures HexValue(ByteHex(b)[0]) * 16 + HexValue(ByteHex(b)[1]) == b
  {
    assert HexValue(HexDigit(b / 16)) == b / 16 && HexValue(HexDigit(b % 16)) == b % 16;
  }

  /** The hex encoding loses nothing: reading it back gives the bytes. */
  lemma {:induction false} HexRoundTrip(bytes: seq<Byte>)
    ensures FromHex(ToHex(bytes)) == bytes
  {
    if bytes != [] {
      var init := bytes[..|bytes| - 1];
      var b := bytes[|bytes| - 1];
      var s := ToHex(bytes);
      assert s == ToHex(init) + ByteHex(b);
      assert s[..|s| - 2] == ToHex(init) && s[|s| - 2] == ByteHex(b)[0] && s[|s| - 1] == ByteHex(b)[1];
      HexRoundTrip(init);
      ByteHexRoundTrip(b);
      assert init + [b] == bytes;
    }
  }

  /** Two byte sequences have the same hex string exactly when they are equal. */
  lemma HexInjective(a: seq<Byte>, b: seq<Byte>)
    ensures ToHex(a) == ToHex(b) <==> a == b
  {
    HexRoundTrip(a);
    HexRoundTrip(b);
  }

  /** The StringBuilder loop shared by EmailToUsername and HashPin. */
  method AppendHex(bytes: seq<Byte>) returns (s: string)
    ensures s == ToHex(bytes)
  {
    s := [];
    var i := 0;
    while i < |bytes|
      invariant 0 <= i <= |bytes|
      invariant s == ToHex(bytes[..i])
    {
      assert bytes[..i + 1][..i] == bytes[..i];
      s := s + ByteHex(bytes[i]);
      i := i + 1;
    }
    assert bytes[..i] == bytes;
  }

  /** The email as the username is derived from: trimmed, then lower-cased. */
  function NormalizeEmail(email: string): (r: string)
    ensures forall i :: 0 <= i < |r| ==> !IsUpper(r[i])
  {
    LowerAll(Trim(email))
  }

  lemma {:induction false} TrimKeepsClean(s: string)
    requires s == [] || (!IsWhiteSpace(s[0]) && !IsWhiteSpace(s[|s| - 1]))
    ensures Trim(s) == s
  {
  }

  lemma LowerAllIdempotent(s: string)
    ensures LowerAll(LowerAll(s)) == LowerAll(s)
  {
    var once := LowerAll(s);
    assert forall i :: 0 <= i < |once| ==> LowerAll(once)[i] == once[i];
  }

  /** Normalising twice is normalising once, so a normalised email yields the same username again. */
  lemma NormalizeIdempotent(email: string)
    ensures NormalizeEmail(NormalizeEmail(email)) == NormalizeEmail(email)
  {
    var t := Trim(email);
    var n := LowerAll(t);
    if n != [] {
      assert !IsWhiteSpace(t[0]) && !IsWhiteSpace(t[|t| - 1]);
      assert n[0] == ToLower(t[0]) && n[|n| - 1] == ToLower(t[|t| - 1]);
    }
    TrimKeepsClean(n);
    LowerAllIdempotent(t);
  }

  /** An MD5 digest: 16 bytes. */
  type Md5Digest = s: seq<Byte> | |s| == 16 witness seq(16, i => 0)

  /** A SHA-256 digest: 32 bytes. */
  type Sha256Digest = s: seq<Byte> | |s| == 32 witness seq(32, i => 0)

  /** A 20-character lower-case hex username that depends only on the normalised email. */
  method EmailToUsername(email: string, md5: string -> Md5Digest) returns (username: string)
    ensures username == ToHex(md5(NormalizeEmail(email)))[..UsernameLength]
    ensures |username| == UsernameLength
  {
    var normalized := LowerAll(Trim(email));
    var hex := AppendHex(md5(normalized));
    username := hex[..UsernameLength];
  }

  /** The hex string of the PIN's SHA-256 digest: 64 characters for its 32 bytes. */
  method HashPin(pin: string, sha256: string -> Sha256Digest) returns (hash: string)
    ensures hash == ToHex(sha256(pin)) && |hash| == 64
  {
    hash := AppendHex(sha256(pin));
  }

  /** The PIN followed by a fixed suffix that brings every character class the backend demands. */
  function PinToPassword(pin: string): (r: string)
    ensures |r| == |pin| + |PasswordSuffix| && |r| >= 8
    ensures r[..|pin|] == pin
    ensures exists i :: 0 <= i < |r| && IsUpper(r[i])
    ensures exists i :: 0 <= i < |r| && IsLower(r[i])
    ensures exists i :: 0 <= i < |r| && IsDigit(r[i])
    ensures exists i :: 0 <= i < |r| && IsSymbol(r[i])
  {
    var r := pin + PasswordSuffix;
    assert IsUpper(r[|pin|]) && IsLower(r[|pin| + 1]) && IsDigit(r[|pin| + 2]) && IsSymbol(r[|pin| + 3]);
    r
  }

  /** Different PINs give different passwords. */
  lemma PinToPasswordInjective(a: string, b: string)
    requires PinToPassword(a) == PinToPassword(b)
    ensures a == b
  {
    assert |a| == |b|;
  }

  /** The fixed messages for two known error codes, and a prefixed generic message otherwise. */
  function ParseAuthError(code: AuthErrorCode, message: string): (r: string)
    ensures code == InvalidParameters ==> r == InvalidFormatMessage
    ensures code == AccountAlreadyLinked ==> r == AlreadyRegisteredMessage
    ensures code.OtherCode? ==> |r| == |GenericErrorPrefix| + |message|
    ensures code.OtherCode? ==> r[..|GenericErrorPrefix|] == GenericErrorPrefix && r[|GenericErrorPrefix|..] == message
  {
    if code == InvalidParameters then InvalidFormatMessage
    else if code == AccountAlreadyLinked then AlreadyRegisteredMessage
    else GenericErrorPrefix + message
  }

  /** The three kinds of message can be told apart, whatever the backend's own message says. */
  lemma AuthErrorsDistinct(code: AuthErrorCode, message: string)
    requires code.OtherCode?
    ensures ParseAuthError(code, message) != InvalidFormatMessage
    ensures ParseAuthError(code, message) != AlreadyRegisteredMessage
    ensures InvalidFormatMessage != AlreadyRegisteredMessage
  {
    var r := ParseAuthError(code, message);
    assert r[0] == 'K';
    assert InvalidFormatMessage[0] == 'G' && AlreadyRegisteredMessage[0] == 'B';
  }

  class AuthService {
    const md5: string -> Md5Digest
    const sha256: string -> Sha256Digest
    var signedIn: bool
    var sessionToken: bool
    var cachedEmail: Option<string>
    var cachedPinHash: Option<string>
    var requests: seq<Request>

    constructor (md5: string -> Md5Digest, sha256: string -> Sha256Digest, sessionToken: bool)
      ensures this.md5 == md5 && this.sha256 == sha256
      ensures this.sessionToken == sessionToken && !signedIn
      ensures cachedEmail == None && cachedPinHash == None && requests == []
    {
      this.md5 := md5;
      this.sha256 := sha256;
      this.sessionToken := sessionToken;
      signedIn := false;
      cachedEmail := None;
      cachedPinHash := None;
      requests := [];
    }

    function IsLoggedIn(): bool
      reads this
    {
      signedIn
    }

    /** The PIN hash after a cloud load: the stored one when the load returned it, else as before. */
    function AfterPinLoad(load: Option<map<string, string>>): Option<string>
      reads this
    {
      if load.Some? && PinHashKey in load.value then Some(load.value[PinHashKey]) else cachedPinHash
    }

    /** LoadPinHashFromCloud: a failed load (None) is swallowed and changes nothing. */
    method LoadPinHash(load: Option<map<string, string>>)
      modifies this`cachedPinHash, this`requests
      ensures cachedPinHash == old(AfterPinLoad(load))
      ensures requests == old(requests) + [LoadCloud({PinHashKey})]
    {
      requests := requests + [LoadCloud({PinHashKey})];
      if load.Some? && PinHashKey in load.value {
        cachedPinHash := Some(load.value[PinHashKey]);
      }
    }

    /** The backend username of an email: the first 20 hex characters of the MD5 of its normalised form. */
    function Username(email: string): (r: string)
      ensures |r| == UsernameLength
    {
      ToHex(md5(NormalizeEmail(email)))[..UsernameLength]
    }

    /**
     * An empty email or password fails at once without a request. Otherwise the derived username
     * and password are sent; on success the email is cached and the PIN hash loaded.
     */
    method Login(email: string, password: string, outcome: BackendOutcome, pinLoad: Option<map<string, string>>)
      returns (r: AuthResult)
      modifies this`signedIn, this`cachedEmail, this`cachedPinHash, this`requests
      ensures email == "" || password == "" ==>
                r == Failure(EmptyLoginMessage) && unchanged(this)
      ensures email != "" && password != "" && outcome.Succeeded? ==>
                r == Success && signedIn && cachedEmail == Some(email)
                && cachedPinHash == old(AfterPinLoad(pinLoad))
                && requests == old(requests)
                     + [SignIn(Username(email), PinToPassword(password)),
                        LoadCloud({PinHashKey})]
      ensures email != "" && password != "" && outcome.AuthFailed? ==>
                r == Failure(ParseAuthError(outcome.code, outcome.message))
      ensures email != "" && password != "" && outcome.RequestFailed? ==> r == Failure(ConnectionMessage)
      ensures email != "" && password != "" && !outcome.Succeeded? ==>
                signedIn == old(signedIn) && cachedEmail == old(cachedEmail) && cachedPinHash == old(cachedPinHash)
                && requests == old(requests)
                     + [SignIn(Username(email), PinToPassword(password))]
    {
      if email == "" || password == "" {
        return Failure(EmptyLoginMessage);
      }
      var username := EmailToUsername(email, md5);
      var complexPassword := PinToPassword(password);
      requests := requests + [SignIn(username, complexPassword)];
      match outcome {
        case Succeeded =>
          signedIn := true;
          cachedEmail := Some(email);
          LoadPinHash(pinLoad);
          r := Success;
        case AuthFailed(code, message) =>
          r := Failure(ParseAuthError(code, message));
        case RequestFailed =>
          r := Failure(ConnectionMessage);
      }
    }

    /** SavePinHashToCloud: the hash is cached before the save, whose failure is swallowed. */
    method SavePinHash(pin: string)
      modifies this`cachedPinHash, this`requests
      ensures cachedPinHash == Some(ToHex(sha256(pin)))
      ensures requests == old(requests) + [SaveCloud(PinHashKey, ToHex(sha256(pin)))]
    {
      var hash := HashPin(pin, sha256);
      cachedPinHash := Some(hash);
      requests := requests + [SaveCloud(PinHashKey, hash)];
    }

    /**
     * Empty fields fail first, then a PIN that is not six characters long; neither sends anything.
     * On a successful sign-up the email and the PIN hash are saved and the player name is set.
     */
    method Register(name: string, email: string, password: string, outcome: BackendOutcome)
      returns (r: AuthResult)
      modifies this`signedIn, this`cachedEmail, this`cachedPinHash, this`requests
      ensures name == "" || email == "" || password == "" ==>
                r == Failure(EmptyRegisterMessage) && unchanged(this)
      ensures name != "" && email != "" && password != "" && Utf16Length(password) != PinLength ==>
                r == Failure(PinLengthMessage) && unchanged(this)
      ensures name != "" && email != "" && Utf16Length(password) == PinLength && outcome.Succeeded? ==>
                r == Success && signedIn && cachedEmail == Some(email)
                && cachedPinHash == Some(ToHex(sha256(password)))
                && requests == old(requests)
                     + [SignUp(Username(email), PinToPassword(password)),
                        SaveCloud(RealEmailKey, email),
                        SaveCloud(PinHashKey, ToHex(sha256(password))),
                        UpdatePlayerName(name)]
      ensures name != "" && email != "" && Utf16Length(password) == PinLength && outcome.AuthFailed? ==>
                r == Failure(ParseAuthError(outcome.code, outcome.message))
      ensures name != "" && email != "" && Utf16Length(password) == PinLength && outcome.RequestFailed? ==>
                r == Failure(ConnectionMessage)
      ensures name != "" && email != "" && Utf16Length(password) == PinLength && !outcome.Succeeded? ==>
                signedIn == old(signedIn) && cachedEmail == old(cachedEmail) && cachedPinHash == old(cachedPinHash)
                && requests == old(requests)
                     + [SignUp(Username(email), PinToPassword(password))]
    {
      if name == "" || email == "" || password == "" {
        return Failure(EmptyRegisterMessage);
      }
      if Utf16Length(password) != PinLength {
        return Failure(PinLengthMessage);
      }
      r := SignUpAndSave(name, email, password, outcome);
    }

    /** Register once its fields are accepted: the sign-up request, then on success the saves. */
    method SignUpAndSave(name: string, email: string, password: string, outcome: BackendOutcome)
      returns (r: AuthResult)
      modifies this`signedIn, this`cachedEmail, this`cachedPinHash, this`requests
      ensures outcome.Succeeded? ==>
                r == Success && signedIn && cachedEmail == Some(email)
                && cachedPinHash == Some(ToHex(sha256(password)))
                && requests == old(requests)
                     + [SignUp(Username(email), PinToPassword(password)),
                        SaveCloud(RealEmailKey, email),
                        SaveCloud(PinHashKey, ToHex(sha256(password))),
                        UpdatePlayerName(name)]
      ensures outcome.AuthFailed? ==> r == Failure(ParseAuthError(outcome.code, outcome.message))
      ensures outcome.RequestFailed? ==> r == Failure(ConnectionMessage)
      ensures !outcome.Succeeded? ==>
                signedIn == old(signedIn) && cachedEmail == old(cachedEmail) && cachedPinHash == old(cachedPinHash)
                && requests == old(requests) + [SignUp(Username(email), PinToPassword(password))]
    {
      var username := EmailToUsername(email, md5);
      var complexPassword := PinToPassword(password);
      requests := requests + [SignUp(username, complexPassword)];
      r := AfterSignUp(name, email, password, outcome);
    }

    /** Register once the sign-up request is sent: the saves on success, the error message otherwise. */
    method AfterSignUp(name: string, email: string, password: string, outcome: BackendOutcome)
      returns (r: AuthResult)
      modifies this`signedIn, this`cachedEmail, this`cachedPinHash, this`requests
      ensures outcome.Succeeded? ==>
                r == Success && signedIn && cachedEmail == Some(email)
                && cachedPinHash == Some(ToHex(sha256(password)))
                && requests == old(requests)
                     + [SaveCloud(RealEmailKey, email), SaveCloud(PinHashKey, ToHex(sha256(password))), UpdatePlayerName(name)]
      ensures outcome.AuthFailed? ==> r == Failure(ParseAuthError(outcome.code, outcome.message))
      ensures outcome.RequestFailed? ==> r == Failure(ConnectionMessage)
      ensures !outcome.Succeeded? ==>
                signedIn == old(signedIn) && cachedEmail == old(cachedEmail) && cachedPinHash == old(cachedPinHash)
                && requests == old(requests)
    {
      match outcome {
        case Succeeded =>
          SaveRegistration(name, email, password);
          r := Success;
        case AuthFailed(code, message) =>
          r := Failure(ParseAuthError(code, message));
        case RequestFailed =>
          r := Failure(ConnectionMessage);
      }
    }

    /** Register after a successful sign-up: signed in, the email and the PIN hash saved, the player named. */
    method SaveRegistration(name: string, email: string, password: string)
      modifies this`signedIn, this`cachedEmail, this`cachedPinHash, this`requests
      ensures signedIn && cachedEmail == Some(email) && cachedPinHash == Some(ToHex(sha256(password)))
      ensures requests == old(requests)
                + [SaveCloud(RealEmailKey, email), SaveCloud(PinHashKey, ToHex(sha256(password))), UpdatePlayerName(name)]
    {
      signedIn := true;
      cachedEmail := Some(email);
      requests := requests + [SaveCloud(RealEmailKey, email)];
      SavePinHash(password);
      requests := requests + [UpdatePlayerName(name)];
    }

    /**
     * Loads the hash from the cloud when none is cached; with still none, the PIN is refused.
     * Otherwise the PIN is accepted exactly when its hash equals the cached one.
     */
    method VerifyPin(pin: string, load: Option<map<string, string>>) returns (ok: bool)
      modifies this`cachedPinHash, this`requests
      ensures !IsNullOrEmpty(old(cachedPinHash)) ==> cachedPinHash == old(cachedPinHash) && requests == old(requests)
      ensures IsNullOrEmpty(old(cachedPinHash)) ==>
                cachedPinHash == old(AfterPinLoad(load)) && requests == old(requests) + [LoadCloud({PinHashKey})]
      ensures ok <==> !IsNullOrEmpty(cachedPinHash) && ToHex(sha256(pin)) == cachedPinHash.value
    {
      if IsNullOrEmpty(cachedPinHash) {
        LoadPinHash(load);
      }
      if IsNullOrEmpty(cachedPinHash) {
        return false;
      }
      var hash := HashPin(pin, sha256);
      ok := hash == cachedPinHash.value;
    }

    /** Forgets the cached email and PIN hash, signs out and clears the session token. */
    method Logout()
      modifies this`signedIn, this`sessionToken, this`cachedEmail, this`cachedPinHash, this`requests
      ensures cachedEmail == None && cachedPinHash == None
      ensures !signedIn && !sessionToken
      ensures requests == old(requests) + [SignOut, ClearSessionToken]
    {
      cachedEmail := None;
      cachedPinHash := None;
      signedIn := false;
      sessionToken := false;
      requests := requests + [SignOut, ClearSessionToken];
    }
  }

  /**
   * Right after a successful registration the registered PIN verifies, and a PIN whose digest
   * differs does not.
   */
  method RegisterThenVerify(service: AuthService, name: string, email: string, pin: string, other: string)
    returns (accepted: bool, rejected: bool)
    requires name != "" && email != "" && Utf16Length(pin) == PinLength
    requires service.sha256(other) != service.sha256(pin)
    modifies service
    ensures accepted && !rejected
  {
    var r := service.Register(name, email, pin, Succeeded);
    accepted := service.VerifyPin(pin, None);
    HexInjective(service.sha256(other), service.sha256(pin));
    rejected := service.VerifyPin(other, None);
  }

  /** After a logout with the cloud unreachable no PIN verifies. */
  method LogoutThenVerify(service: AuthService, pin: string) returns (ok: bool)
    modifies service
    ensures !ok
  {
    service.Logout();
    ok := service.VerifyPin(pin, None);
  }
}
