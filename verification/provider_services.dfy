/** The service list of the provider profile screen (Pages/viewProveedor.js):
    loading it from the provider records and adding a service. */
module ProviderServices {

  import opened Common
  import opened Seqs
  import opened Text

  function HasCorreo(correo: string): Account -> bool {
    (a: Account) => a.correo == correo
  }

  /** The services effect: with a profile e-mail, the first provider record
      carrying it supplies the list (a missing `servicios` reads as empty);
      with no profile e-mail, or no such record, the list stays. */
  function LoadServices(current: seq<string>, usuarios: seq<Account>, perfil: Option<Profile>): (r: seq<string>)
    ensures perfil.None? || perfil.value.correo == "" ==> r == current
    ensures perfil.Some? && (forall i :: 0 <= i < |usuarios| ==> usuarios[i].correo != perfil.value.correo) ==>
      r == current
    ensures perfil.Some? && perfil.value.correo != "" && (exists i :: 0 <= i < |usuarios| && usuarios[i].correo == perfil.value.correo) ==>
      exists i :: && 0 <= i < |usuarios| && usuarios[i].correo == perfil.value.correo
                  && (forall j :: 0 <= j < i ==> usuarios[j].correo != perfil.value.correo)
                  && r == (if usuarios[i].servicios.Some? then usuarios[i].servicios.value else [])
  {
    match ProfileEmail(perfil)
    case None => current
    case Some(correo) =>
      match FindIndex(usuarios, HasCorreo(correo))
      case None => current
      case Some(i) =>
        match usuarios[i].servicios
        case Some(ss) => ss
        case None => []
  }

  /** `servicios` and the text field `servicio`. */
  datatype ServicesState = ServicesState(servicios: seq<string>, servicio: string)

  /** `handleAddService`: the state afterwards and the POST sent, if any. A
      blank entry is rejected before any request; without a profile the
      request body cannot be built and the handler fails before sending;
      only a 201 appends the entry, as typed, and clears the field. */
  function AddService(s: ServicesState, perfil: Option<Profile>, outcome: HttpOutcome): (r: (ServicesState, Option<Request>))
    ensures Blank(s.servicio) || perfil.None? ==> r == (s, None)
    ensures !Blank(s.servicio) && perfil.Some? ==>
      r.1 == Some(Request(Post, "servicios",
                          map["correo" := Str(perfil.value.correo), "servicio" := Str(s.servicio)]))
    ensures !Created(outcome) ==> r.0 == s
    ensures r.1.Some? && Created(outcome) ==>
      r.0.servicios == s.servicios + [s.servicio] && r.0.servicio == ""
  {
    TrimEmptyIffBlank(s.servicio);
    if Trim(s.servicio) == "" || perfil.None? then (s, None)
    else
      var req := Request(Post, "servicios", map["correo" := Str(perfil.value.correo), "servicio" := Str(s.servicio)]);
      if Created(outcome) then (ServicesState(s.servicios + [s.servicio], ""), Some(req))
      else (s, Some(req))
  }
}
