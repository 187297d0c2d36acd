/** The account logic of the home screen (App.js): credential lookup across
    the three account lists, the role-to-screen switch, the e-mail existence
    check, and account creation. */
module Login {

  import opened Common
  import opened Seqs
  import opened Text

  datatype Role = Cliente | Organizador | Proveedor

  /** The Picker value and `tipoUsuario` string of a role. */
  function RoleName(role: Role): string {
    match role
    case Cliente => "Cliente"
    case Organizador => "Organizador"
    case Proveedor => "Proveedor"
  }

  /** The `switch` on the account type: a known name gives its role, any other string none. */
  function RoleNamed(s: string): (r: Option<Role>)
    ensures r.Some? ==> RoleName(r.value) == s
    ensures forall role :: RoleName(role) == s ==> r == Some(role)
  {
    if s == "Cliente" then Some(Cliente)
    else if s == "Organizador" then Some(Organizador)
    else if s == "Proveedor" then Some(Proveedor)
    else None
  }

  /** The screen each role lands on: clients on the screen named after their
      type, organizers and providers on their type's name followed by "View". */
  function RouteFor(role: Role): (r: string)
    ensures role == Cliente <==> r == RoleName(role)
    ensures role != Cliente <==> r == RoleName(role) + "View"
  {
    match role
    case Cliente => "Cliente"
    case Organizador => "OrganizadorView"
    case Proveedor => "ProveedorView"
  }

  /** Distinct roles land on distinct screens, so the route identifies the role. */
  lemma RoutesDistinct(a: Role, b: Role)
    ensures RouteFor(a) == RouteFor(b) ==> a == b
  {
  }

  /** The collection each role is looked up in (GET) or created in (POST). */
  function ListPath(role: Role): string {
    match role
    case Cliente => "usuarios"
    case Organizador => "organizador"
    case Proveedor => "proveedor"
  }

  predicate Matches(a: Account, email: string, password: string) {
    a.correo == email && a.password == password
  }

  function MatchesLogin(email: string, password: string): Account -> bool {
    (a: Account) => Matches(a, email, password)
  }

  predicate HasMatch(accounts: seq<Account>, email: string, password: string) {
    exists i :: 0 <= i < |accounts| && Matches(accounts[i], email, password)
  }

  datatype LoginOutcome =
    | LoggedIn(role: Role, account: Account, saved: Profile, route: string)
    | WrongCredentials
    | LoginFailed

  /** The part of `handleLogin` after one GET: the first matching record, if any. */
  function FindAccount(accounts: seq<Account>, email: string, password: string): (r: Option<Account>)
    ensures r.Some? <==> HasMatch(accounts, email, password)
    ensures r.Some? ==>
      exists i :: && 0 <= i < |accounts| && accounts[i] == r.value
                  && Matches(accounts[i], email, password)
                  && forall j :: 0 <= j < i ==> !Matches(accounts[j], email, password)
  {
    match FindIndex(accounts, MatchesLogin(email, password))
    case Some(i) => Some(accounts[i])
    case None => None
  }

  function Succeed(role: Role, a: Account, email: string): LoginOutcome {
    LoggedIn(role, a, Profile(a.nombre, email), RouteFor(role))
  }

  /** `handleLogin`: clients, then organizers, then providers, each list
      fetched only when the previous ones had no match; a failed GET on the
      way aborts the login. */
  function LoginWith(clientes: Fetch<seq<Account>>, organizadores: Fetch<seq<Account>>,
                     proveedores: Fetch<seq<Account>>, email: string, password: string): (r: LoginOutcome)
    ensures r.LoggedIn? ==> r.saved == Profile(r.account.nombre, email) && r.route == RouteFor(r.role)
    ensures r.LoggedIn? ==> Matches(r.account, email, password)
    ensures r.LoggedIn? && r.role == Cliente ==>
      clientes.Fetched? && FindAccount(clientes.data, email, password) == Some(r.account)
    ensures r.LoggedIn? && r.role == Organizador ==>
      && clientes.Fetched? && !HasMatch(clientes.data, email, password)
      && organizadores.Fetched? && FindAccount(organizadores.data, email, password) == Some(r.account)
    ensures r.LoggedIn? && r.role == Proveedor ==>
      && clientes.Fetched? && !HasMatch(clientes.data, email, password)
      && organizadores.Fetched? && !HasMatch(organizadores.data, email, password)
      && proveedores.Fetched? && FindAccount(proveedores.data, email, password) == Some(r.account)
    ensures clientes.Fetched? && organizadores.Fetched? && proveedores.Fetched? ==>
      (r.LoggedIn? <==> (|| HasMatch(clientes.data, email, password)
                         || HasMatch(organizadores.data, email, password)
                         || HasMatch(proveedores.data, email, password)))
    ensures clientes.FetchFailed? ==> r == LoginFailed
    ensures clientes.Fetched? && HasMatch(clientes.data, email, password) ==>
      r.LoggedIn? && r.role == Cliente
    ensures clientes.Fetched? && !HasMatch(clientes.data, email, password) ==>
      && (organizadores.FetchFailed? ==> r == LoginFailed)
      && (organizadores.Fetched? && HasMatch(organizadores.data, email, password) ==>
            r.LoggedIn? && r.role == Organizador)
    ensures && clientes.Fetched? && !HasMatch(clientes.data, email, password)
            && organizadores.Fetched? && !HasMatch(organizadores.data, email, password) ==>
      && (proveedores.FetchFailed? ==> r == LoginFailed)
      && (proveedores.Fetched? && HasMatch(proveedores.data, email, password) ==>
            r.LoggedIn? && r.role == Proveedor)
      && (proveedores.Fetched? && !HasMatch(proveedores.data, email, password) ==>
            r == WrongCredentials)
    ensures r.LoginFailed? ==>
      || clientes.FetchFailed?
      || (!HasMatch(clientes.data, email, password) && organizadores.FetchFailed?)
      || (!HasMatch(clientes.data, email, password) && !HasMatch(organizadores.data, email, password)
          && proveedores.FetchFailed?)
  {
    match clientes
    case FetchFailed => LoginFailed
    case Fetched(cs) =>
      match FindAccount(cs, email, password)
      case Some(a) => Succeed(Cliente, a, email)
      case None =>
        match organizadores
        case FetchFailed => LoginFailed
        case Fetched(os) =>
          match FindAccount(os, email, password)
          case Some(a) => Succeed(Organizador, a, email)
          case None =>
            match proveedores
            case FetchFailed => LoginFailed
            case Fetched(ps) =>
              match FindAccount(ps, email, password)
              case Some(a) => Succeed(Proveedor, a, email)
              case None => WrongCredentials
  }

  predicate HasEmail(accounts: seq<Account>, correo: string) {
    exists i :: 0 <= i < |accounts| && accounts[i].correo == correo
  }

  /** `verificarCorreoExistente`: true as soon as a list (in the order clients,
      organizers, providers) holds the e-mail; false when none does, and false
      when a GET it reaches fails. */
  function EmailExists(clientes: Fetch<seq<Account>>, organizadores: Fetch<seq<Account>>,
                       proveedores: Fetch<seq<Account>>, correo: string): (r: bool)
    ensures clientes.Fetched? && organizadores.Fetched? && proveedores.Fetched? ==>
      (r <==> (|| HasEmail(clientes.data, correo)
               || HasEmail(organizadores.data, correo)
               || HasEmail(proveedores.data, correo)))
    ensures clientes.FetchFailed? ==> !r
    ensures clientes.Fetched? && HasEmail(clientes.data, correo) ==> r
    ensures clientes.Fetched? && !HasEmail(clientes.data, correo) ==>
      && (organizadores.FetchFailed? ==> !r)
      && (organizadores.Fetched? && HasEmail(organizadores.data, correo) ==> r)
    ensures && clientes.Fetched? && !HasEmail(clientes.data, correo)
            && organizadores.Fetched? && !HasEmail(organizadores.data, correo) ==>
      && (proveedores.FetchFailed? ==> !r)
      && (proveedores.Fetched? ==> (r <==> HasEmail(proveedores.data, correo)))
    ensures r ==>
      || (clientes.Fetched? && HasEmail(clientes.data, correo))
      || (clientes.Fetched? && organizadores.Fetched? && HasEmail(organizadores.data, correo))
      || (clientes.Fetched? && organizadores.Fetched? && proveedores.Fetched? && HasEmail(proveedores.data, correo))
  {
    match clientes
    case FetchFailed => false
    case Fetched(cs) =>
      if HasEmail(cs, correo) then true
      else match organizadores
        case FetchFailed => false
        case Fetched(os) =>
          if HasEmail(os, correo) then true
          else match proveedores
            case FetchFailed => false
            case Fetched(ps) => HasEmail(ps, correo)
  }

  /** The account form of the home screen. */
  datatype AccountForm = AccountForm(nombreCompleto: string, email: string, password: string,
                                     ubicacion: string, telefono: string, accountType: string)

  /** `nuevoUsuario`, the POST body of a new account. */
  function NewAccountBody(f: AccountForm): (r: map<string, JsValue>)
    ensures r.Keys == {"nombre", "correo", "password", "ubicacion", "telefono", "tipo"}
    ensures r["nombre"] == Str(f.nombreCompleto) && r["correo"] == Str(f.email) && r["password"] == Str(f.password)
    ensures r["ubicacion"] == Str(f.ubicacion) && r["telefono"] == Str(f.telefono) && r["tipo"] == Str(f.accountType)
  {
    map["nombre" := Str(f.nombreCompleto), "correo" := Str(f.email), "password" := Str(f.password),
        "ubicacion" := Str(f.ubicacion), "telefono" := Str(f.telefono), "tipo" := Str(f.accountType)]
  }

  /** What account creation did: the POST it sent, the profile it saved, the screen it opened. */
  datatype CreateEffect = CreateEffect(request: Option<Request>, saved: Option<Profile>, route: Option<string>)

  /** `handleCreateAccount`: nothing is posted when the e-mail check says the
      address exists; otherwise the form is POSTed to the lower-cased account
      type, and only a 201 saves the profile and opens the role's screen (an
      unknown account type opens none). */
  function CreateAccount(f: AccountForm, clientes: Fetch<seq<Account>>, organizadores: Fetch<seq<Account>>,
                         proveedores: Fetch<seq<Account>>, outcome: HttpOutcome): (r: CreateEffect)
    ensures EmailExists(clientes, organizadores, proveedores, f.email) ==> r == CreateEffect(None, None, None)
    ensures !EmailExists(clientes, organizadores, proveedores, f.email) ==>
      r.request == Some(Request(Post, ToLowerAscii(f.accountType), NewAccountBody(f)))
    ensures r.saved.Some? <==> r.request.Some? && Created(outcome)
    ensures r.saved.Some? ==> r.saved.value == Profile(f.nombreCompleto, f.email)
    ensures r.route.Some? <==> r.saved.Some? && RoleNamed(f.accountType).Some?
    ensures r.route.Some? ==> r.route.value == RouteFor(RoleNamed(f.accountType).value)
  {
    if EmailExists(clientes, organizadores, proveedores, f.email) then CreateEffect(None, None, None)
    else
      var req := Some(Request(Post, ToLowerAscii(f.accountType), NewAccountBody(f)));
      if !Created(outcome) then CreateEffect(req, None, None)
      else
        var route := match RoleNamed(f.accountType)
          case Some(role) => Some(RouteFor(role))
          case None => None;
        CreateEffect(req, Some(Profile(f.nombreCompleto, f.email)), route)
  }

  /** An address already on file in any list blocks creation, provided the
      lists were readable. */
  lemma ExistingEmailBlocksCreation(f: AccountForm, cs: seq<Account>, os: seq<Account>,
                                    ps: seq<Account>, outcome: HttpOutcome)
    requires HasEmail(cs, f.email) || HasEmail(os, f.email) || HasEmail(ps, f.email)
    ensures CreateAccount(f, Fetched(cs), Fetched(os), Fetched(ps), outcome).request.None?
  {
  }

  /** A failed check reads as "not on file", so creation goes ahead. */
  lemma FailedCheckAllowsCreation(f: AccountForm, os: Fetch<seq<Account>>, ps: Fetch<seq<Account>>,
                                  outcome: HttpOutcome)
    ensures CreateAccount(f, FetchFailed, os, ps, outcome).request.Some?
  {
  }

  /** The Picker's three account types post to "cliente", "organizador" and
      "proveedor"; for organizers and providers that is the collection the
      login reads, while clients are read from "usuarios". */
  lemma CreatePaths(role: Role)
    ensures ToLowerAscii(RoleName(role)) ==
      match role
      case Cliente => "cliente"
      case Organizador => "organizador"
      case Proveedor => "proveedor"
    ensures role != Cliente ==> ToLowerAscii(RoleName(role)) == ListPath(role)
    ensures role == Cliente ==> ToLowerAscii(RoleName(role)) != ListPath(role)
  {
  }
}
