/** The list logic of the events screen (Pages/Eventos.js): which events a
    profile sees, local removal after a delete, and the bodies sent when an
    event is created or a provider is assigned. */
module Events {

  import opened Common
  import opened Seqs

  /** The six fields of the event form, `eventoDetalles`. */
  datatype Details = Details(estado: string, fecha: string, hora: string,
                             precio: string, tipoEvento: string, ubicacion: string)

  /** An event record of `/evento`; a participant id is absent until set. */
  datatype Event = Event(id: string, detalles: Details, idOrganizador: Option<string>,
                         idProveedor: Option<string>, idUsuario: Option<string>)

  /** The profile's e-mail is the event's organizer, provider or client. */
  predicate Concerns(e: Event, correo: string) {
    e.idOrganizador == Some(correo) || e.idProveedor == Some(correo) || e.idUsuario == Some(correo)
  }

  function ConcernsProfile(correo: string): Event -> bool {
    (e: Event) => Concerns(e, correo)
  }

  /** `eventosFiltrados`. */
  function EventsOf(eventos: seq<Event>, correo: string): seq<Event> {
    Filter(eventos, ConcernsProfile(correo))
  }

  /** The shown events are exactly those naming the profile's e-mail in one of
      the three id fields, and they keep their relative order. */
  lemma EventsOfSpec(a: seq<Event>, b: seq<Event>, correo: string)
    ensures forall e :: e in EventsOf(a, correo) <==> e in a && Concerns(e, correo)
    ensures EventsOf(a + b, correo) == EventsOf(a, correo) + EventsOf(b, correo)
  {
    FilterMembership(a, ConcernsProfile(correo));
    FilterConcat(a, b, ConcernsProfile(correo));
  }

  /** `cargarEventos`: the list is replaced by the profile's events only when
      there is a profile and the GET succeeded. */
  function LoadEvents(current: seq<Event>, perfil: Option<Profile>, fetched: Fetch<seq<Event>>): (r: seq<Event>)
    ensures perfil.None? || fetched.FetchFailed? ==> r == current
    ensures perfil.Some? && fetched.Fetched? ==> r == EventsOf(fetched.data, perfil.value.correo)
    ensures perfil.Some? && fetched.Fetched? ==>
      forall e :: e in r <==> e in fetched.data && Concerns(e, perfil.value.correo)
  {
    if perfil.None? || fetched.FetchFailed? then current
    else
      FilterMembership(fetched.data, ConcernsProfile(perfil.value.correo));
      EventsOf(fetched.data, perfil.value.correo)
  }

  function IdIsNot(idEvento: string): Event -> bool {
    (e: Event) => e.id != idEvento
  }

  /** `handleDeleteEvento`: the DELETE request it always sends, and the list
      afterwards. Only a resolved request filters the local list. */
  function DeleteEvent(eventos: seq<Event>, idEvento: string, outcome: HttpOutcome): (r: (Request, seq<Event>))
    ensures r.0 == Request(Delete, "evento/" + idEvento, map[])
    ensures !Resolved(outcome) ==> r.1 == eventos
    ensures Resolved(outcome) ==> forall e :: e in r.1 <==> e in eventos && e.id != idEvento
    ensures Resolved(outcome) ==>
      forall e :: multiset(r.1)[e] == if e.id != idEvento then multiset(eventos)[e] else 0
  {
    FilterMembership(eventos, IdIsNot(idEvento));
    FilterCounts(eventos, IdIsNot(idEvento));
    (Request(Delete, "evento/" + idEvento, map[]),
     if Resolved(outcome) then Filter(eventos, IdIsNot(idEvento)) else eventos)
  }

  /** After a successful delete the events other than the target stay in
      their order: removal commutes with splitting the list. */
  lemma DeleteKeepsOrder(a: seq<Event>, b: seq<Event>, idEvento: string, outcome: HttpOutcome)
    requires Resolved(outcome)
    ensures DeleteEvent(a + b, idEvento, outcome).1 ==
      DeleteEvent(a, idEvento, outcome).1 + DeleteEvent(b, idEvento, outcome).1
  {
    FilterConcat(a, b, IdIsNot(idEvento));
  }

  /** Deleting an id that no listed event carries leaves the list as it was. */
  lemma DeleteAbsentId(eventos: seq<Event>, idEvento: string, outcome: HttpOutcome)
    requires forall i :: 0 <= i < |eventos| ==> eventos[i].id != idEvento
    ensures DeleteEvent(eventos, idEvento, outcome).1 == eventos
  {
    FilterAllOrNone(eventos, IdIsNot(idEvento));
  }

  /** `{ ...eventoDetalles, idOrganizador, idUsuario }`: the POST body of a new event. */
  function NewEventBody(d: Details, idOrganizador: Option<string>, idUsuario: Option<string>): (r: map<string, JsValue>)
    ensures r.Keys == {"estado", "fecha", "hora", "precio", "tipoEvento", "ubicacion", "idOrganizador", "idUsuario"}
    ensures "idProveedor" !in r
    ensures r["idOrganizador"] == OfOption(idOrganizador) && r["idUsuario"] == OfOption(idUsuario)
    ensures r["estado"] == Str(d.estado) && r["fecha"] == Str(d.fecha) && r["hora"] == Str(d.hora)
    ensures r["precio"] == Str(d.precio) && r["tipoEvento"] == Str(d.tipoEvento) && r["ubicacion"] == Str(d.ubicacion)
  {
    map["estado" := Str(d.estado), "fecha" := Str(d.fecha), "hora" := Str(d.hora),
        "precio" := Str(d.precio), "tipoEvento" := Str(d.tipoEvento), "ubicacion" := Str(d.ubicacion),
        "idOrganizador" := OfOption(idOrganizador), "idUsuario" := OfOption(idUsuario)]
  }

  /** What a handler does after its request: reload the events and go to the
      "Eventos" screen on success, nothing more on failure. */
  datatype Followup = Followup(request: Request, reload: bool, navigateTo: Option<string>)

  /** `handleSaveEvento`. */
  function SaveEvent(d: Details, idOrganizador: Option<string>, idUsuario: Option<string>,
                     outcome: HttpOutcome): (r: Followup)
    ensures r.request.verb == Post && r.request.path == "evento"
    ensures r.request.body == NewEventBody(d, idOrganizador, idUsuario)
    ensures r.reload <==> Resolved(outcome)
    ensures r.navigateTo == if Resolved(outcome) then Some("Eventos") else None
  {
    var req := Request(Post, "evento", NewEventBody(d, idOrganizador, idUsuario));
    if Resolved(outcome) then Followup(req, true, Some("Eventos")) else Followup(req, false, None)
  }

  /** `handleSelectEvent`: a PUT to the event whose body holds only `idProveedor`. */
  function SelectEvent(idEvento: string, idProveedor: Option<string>, outcome: HttpOutcome): (r: Followup)
    ensures r.request.verb == Put && r.request.path == "evento/" + idEvento
    ensures r.request.body.Keys == {"idProveedor"}
    ensures r.request.body["idProveedor"] == OfOption(idProveedor)
    ensures r.reload <==> Resolved(outcome)
    ensures r.navigateTo == if Resolved(outcome) then Some("Eventos") else None
  {
    var req := Request(Put, "evento/" + idEvento, map["idProveedor" := OfOption(idProveedor)]);
    if Resolved(outcome) then Followup(req, true, Some("Eventos")) else Followup(req, false, None)
  }
}
