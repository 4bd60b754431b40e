/** What the read loops of BenchmarkDynamoDbService answer with: every value
    collected satisfies the equalities of the call that answered it, whose
    arguments come from the distinct lists of the input; and what a write
    followed by the lookup loop reads back. */
module DynamoServiceProps {
  import opened Wrappers
  import opened Dates
  import opened Decimals
  import opened Sequences
  import opened Models
  import opened DynamoItems
  import opened DynamoFilters
  import opened DynamoTable
  import opened DynamoQueries
  import opened DynamoRepository
  import opened DynamoService

  // ---------------------------------------------------------------------------
  // Soundness of the three loop shapes

  lemma EachAdmits<A>(items: seq<Item>, pageItems: nat, xs: seq<A>, f: A -> Call)
    ensures Answers(items, pageItems, Each(xs, f)).Ok? ==>
      forall v :: v in Answers(items, pageItems, Each(xs, f)).value ==>
        exists i :: 0 <= i < |xs| && Admits(f(xs[i]), v)
  {
    var calls := Each(xs, f);
    AnswersAdmit(items, pageItems, calls);
    if Answers(items, pageItems, calls).Ok? {
      forall v | v in Answers(items, pageItems, calls).value ensures exists i :: 0 <= i < |xs| && Admits(f(xs[i]), v) {
        var c :| c in calls && Admits(c, v);
        var i :| 0 <= i < |calls| && calls[i] == c;
        assert Admits(f(xs[i]), v);
      }
    }
  }

  lemma CrossAdmits<A, B>(items: seq<Item>, pageItems: nat, xs: seq<A>, ys: seq<B>, f: (A, B) -> Call)
    ensures Answers(items, pageItems, Cross(xs, ys, f)).Ok? ==>
      forall v :: v in Answers(items, pageItems, Cross(xs, ys, f)).value ==>
        exists i, j :: 0 <= i < |xs| && 0 <= j < |ys| && Admits(f(xs[i], ys[j]), v)
  {
    var calls := Cross(xs, ys, f);
    AnswersAdmit(items, pageItems, calls);
    CrossMembers(xs, ys, f);
    if Answers(items, pageItems, calls).Ok? {
      forall v | v in Answers(items, pageItems, calls).value
        ensures exists i, j :: 0 <= i < |xs| && 0 <= j < |ys| && Admits(f(xs[i], ys[j]), v)
      {
        var c :| c in calls && Admits(c, v);
        var i, j :| 0 <= i < |xs| && 0 <= j < |ys| && c == f(xs[i], ys[j]);
      }
    }
  }

  lemma Cross3Admits<A, B, D>(items: seq<Item>, pageItems: nat, xs: seq<A>, ys: seq<B>, zs: seq<D>, f: (A, B, D) -> Call)
    ensures Answers(items, pageItems, Cross3(xs, ys, zs, f)).Ok? ==>
      forall v :: v in Answers(items, pageItems, Cross3(xs, ys, zs, f)).value ==>
        exists i, j, k :: 0 <= i < |xs| && 0 <= j < |ys| && 0 <= k < |zs| && Admits(f(xs[i], ys[j], zs[k]), v)
  {
    var calls := Cross3(xs, ys, zs, f);
    AnswersAdmit(items, pageItems, calls);
    Cross3Members(xs, ys, zs, f);
    if Answers(items, pageItems, calls).Ok? {
      forall v | v in Answers(items, pageItems, calls).value
        ensures exists i, j, k :: 0 <= i < |xs| && 0 <= j < |ys| && 0 <= k < |zs| && Admits(f(xs[i], ys[j], zs[k]), v)
      {
        var c :| c in calls && Admits(c, v);
        var i, j, k :| 0 <= i < |xs| && 0 <= j < |ys| && 0 <= k < |zs| && c == f(xs[i], ys[j], zs[k]);
      }
    }
  }

  // ---------------------------------------------------------------------------
  // What one call admits, field by field

  lemma FamiliaDataAdmitted(f: string, d: DateOnly, v: ValorDynamoDB)
    requires Admits(FamiliaDataCall(f, d), v)
    ensures v.nomeFamilia == f && v.dataInicioVigencia == d
  {
  }

  lemma FamiliaAdmitted(f: string, v: ValorDynamoDB)
    requires Admits(FamiliaCall(f), v)
    ensures v.nomeFamilia == f
  {
  }

  lemma SerieFamiliaDataAdmitted(d: DateOnly, f: string, s: string, v: ValorDynamoDB)
    requires Admits(SerieFamiliaDataCall(d, f, s), v)
    ensures v.nomeFamilia == f && v.nomeSerie == s && v.dataInicioVigencia == d
  {
  }

  lemma SerieFamiliaAdmitted(f: string, s: string, v: ValorDynamoDB)
    requires Admits(SerieFamiliaCall(f, s), v)
    ensures v.nomeFamilia == f && v.nomeSerie == s
  {
  }

  lemma SerieAtributoAdmitted(s: string, a: string, v: ValorDynamoDB)
    requires Admits(SerieAtributoCall(s, a), v)
    ensures v.nomeSerie == s && v.nomeAtributo == a
  {
  }

  lemma SerieDataAdmitted(d: DateOnly, s: string, v: ValorDynamoDB)
    requires Admits(SerieDataCall(d, s), v)
    ensures v.nomeSerie == s && v.dataInicioVigencia == d
  {
  }

  lemma SerieAdmitted(s: string, v: ValorDynamoDB)
    requires Admits(SerieCall(s), v)
    ensures v.nomeSerie == s
  {
  }

  lemma KeyAdmitted(u: ValorDynamoDB, v: ValorDynamoDB)
    requires Admits(KeyCall(u), v) || Admits(ItemSerieAtributoCall(u), v)
    ensures v.nomeSerie == u.nomeSerie
  {
  }

  lemma SerieAtributoDataAdmitted(u: ValorDynamoDB, v: ValorDynamoDB)
    requires Admits(SerieAtributoDataCall(u), v)
    ensures v.nomeSerie == u.nomeSerie && v.nomeAtributo == u.nomeAtributo && v.dataInicioVigencia == u.dataInicioVigencia
  {
  }

  /** A filtered scan admits exactly the values satisfying its filter. */
  lemma FilteredAdmitted(f: ScanFilter, v: ValorDynamoDB)
    requires Admits(Filtered(f), v)
    ensures FieldsSatisfy(v, f)
    ensures f.dataInicioVigencia.Some? ==> v.dataInicioVigencia == f.dataInicioVigencia.value
  {
  }

  // ---------------------------------------------------------------------------
  // Per read loop

  /** GetFamiliaData collects only values of a listed family and start date. */
  lemma GetFamiliaDataSound(items: seq<Item>, pageItems: nat, valores: seq<ValorDynamoDB>)
    requires Answers(items, pageItems, Cross(ListaFamilia(valores), ListaData(valores), FamiliaDataCall)).Ok?
    ensures forall v :: v in Answers(items, pageItems, Cross(ListaFamilia(valores), ListaData(valores), FamiliaDataCall)).value ==>
      v.nomeFamilia in ListaFamilia(valores) && v.dataInicioVigencia in ListaData(valores)
  {
    var xs, ys := ListaFamilia(valores), ListaData(valores);
    CrossAdmits(items, pageItems, xs, ys, FamiliaDataCall);
    forall v | v in Answers(items, pageItems, Cross(xs, ys, FamiliaDataCall)).value
      ensures v.nomeFamilia in xs && v.dataInicioVigencia in ys
    {
      var i, j :| 0 <= i < |xs| && 0 <= j < |ys| && Admits(FamiliaDataCall(xs[i], ys[j]), v);
      FamiliaDataAdmitted(xs[i], ys[j], v);
    }
  }

  /** GetFiltroFamiliaData collects only values satisfying the filter of a
      listed family and start date. */
  lemma GetFiltroFamiliaDataSound(items: seq<Item>, pageItems: nat, valores: seq<ValorDynamoDB>)
    requires Answers(items, pageItems, Cross(ListaFamilia(valores), ListaData(valores), FiltroFamiliaDataCall)).Ok?
    ensures forall v :: v in Answers(items, pageItems, Cross(ListaFamilia(valores), ListaData(valores), FiltroFamiliaDataCall)).value ==>
      exists f, d :: f in ListaFamilia(valores) && d in ListaData(valores) && FieldsSatisfy(v, FiltroFamiliaData(f, d))
  {
    var xs, ys := ListaFamilia(valores), ListaData(valores);
    CrossAdmits(items, pageItems, xs, ys, FiltroFamiliaDataCall);
    forall v | v in Answers(items, pageItems, Cross(xs, ys, FiltroFamiliaDataCall)).value
      ensures exists f, d :: f in xs && d in ys && FieldsSatisfy(v, FiltroFamiliaData(f, d))
    {
      var i, j :| 0 <= i < |xs| && 0 <= j < |ys| && Admits(FiltroFamiliaDataCall(xs[i], ys[j]), v);
      FilteredAdmitted(FiltroFamiliaData(xs[i], ys[j]), v);
      assert xs[i] in xs && ys[j] in ys && FieldsSatisfy(v, FiltroFamiliaData(xs[i], ys[j]));
    }
  }

  /** The lookup loop collects only values of an input's series. */
  lemma GetItemDataSound(items: seq<Item>, pageItems: nat, valores: seq<ValorDynamoDB>)
    requires Answers(items, pageItems, Each(valores, KeyCall)).Ok?
    ensures forall v :: v in Answers(items, pageItems, Each(valores, KeyCall)).value ==>
      exists u :: u in valores && v.nomeSerie == u.nomeSerie
  {
    EachAdmits(items, pageItems, valores, KeyCall);
    forall v | v in Answers(items, pageItems, Each(valores, KeyCall)).value
      ensures exists u :: u in valores && v.nomeSerie == u.nomeSerie
    {
      var i :| 0 <= i < |valores| && Admits(KeyCall(valores[i]), v);
      KeyAdmitted(valores[i], v);
      assert valores[i] in valores;
    }
  }

  /** GetFamilia collects only values of a listed family. */
  lemma GetFamiliaSound(items: seq<Item>, pageItems: nat, valores: seq<ValorDynamoDB>)
    requires Answers(items, pageItems, Each(ListaFamilia(valores), FamiliaCall)).Ok?
    ensures forall v :: v in Answers(items, pageItems, Each(ListaFamilia(valores), FamiliaCall)).value ==>
      v.nomeFamilia in ListaFamilia(valores)
  {
    var xs := ListaFamilia(valores);
    EachAdmits(items, pageItems, xs, FamiliaCall);
    forall v | v in Answers(items, pageItems, Each(xs, FamiliaCall)).value ensures v.nomeFamilia in xs {
      var i :| 0 <= i < |xs| && Admits(FamiliaCall(xs[i]), v);
      FamiliaAdmitted(xs[i], v);
    }
  }

  /** GetSerieFamiliaData collects only values of a listed family, series and start date. */
  lemma GetSerieFamiliaDataSound(items: seq<Item>, pageItems: nat, valores: seq<ValorDynamoDB>)
    requires Answers(items, pageItems, Cross3(ListaData(valores), ListaFamilia(valores), ListaSerie(valores), SerieFamiliaDataCall)).Ok?
    ensures forall v :: v in Answers(items, pageItems, Cross3(ListaData(valores), ListaFamilia(valores), ListaSerie(valores), SerieFamiliaDataCall)).value ==>
      v.nomeFamilia in ListaFamilia(valores) && v.nomeSerie in ListaSerie(valores) && v.dataInicioVigencia in ListaData(valores)
  {
    var xs, ys, zs := ListaData(valores), ListaFamilia(valores), ListaSerie(valores);
    Cross3Admits(items, pageItems, xs, ys, zs, SerieFamiliaDataCall);
    forall v | v in Answers(items, pageItems, Cross3(xs, ys, zs, SerieFamiliaDataCall)).value
      ensures v.nomeFamilia in ys && v.nomeSerie in zs && v.dataInicioVigencia in xs
    {
      var i, j, k :| 0 <= i < |xs| && 0 <= j < |ys| && 0 <= k < |zs| && Admits(SerieFamiliaDataCall(xs[i], ys[j], zs[k]), v);
      SerieFamiliaDataAdmitted(xs[i], ys[j], zs[k], v);
    }
  }

  /** GetFiltroSerieFamiliaData collects only values satisfying the filter of a listed start date, family and series. */
  lemma GetFiltroSerieFamiliaDataSound(items: seq<Item>, pageItems: nat, valores: seq<ValorDynamoDB>)
    requires Answers(items, pageItems, Cross3(ListaData(valores), ListaFamilia(valores), ListaSerie(valores), FiltroSerieFamiliaDataCall)).Ok?
    ensures forall v :: v in Answers(items, pageItems, Cross3(ListaData(valores), ListaFamilia(valores), ListaSerie(valores), FiltroSerieFamiliaDataCall)).value ==>
      v.dataInicioVigencia in ListaData(valores) && exists d, f, s :: d in ListaData(valores) && f in ListaFamilia(valores) && s in ListaSerie(valores) && FieldsSatisfy(v, FiltroSerieFamiliaData(s, f, d))
  {
    var xs, ys, zs := ListaData(valores), ListaFamilia(valores), ListaSerie(valores);
    Cross3Admits(items, pageItems, xs, ys, zs, FiltroSerieFamiliaDataCall);
    forall v | v in Answers(items, pageItems, Cross3(xs, ys, zs, FiltroSerieFamiliaDataCall)).value
      ensures v.dataInicioVigencia in xs && exists d, f, s :: d in xs && f in ys && s in zs && FieldsSatisfy(v, FiltroSerieFamiliaData(s, f, d))
    {
      var i, j, k :| 0 <= i < |xs| && 0 <= j < |ys| && 0 <= k < |zs| && Admits(FiltroSerieFamiliaDataCall(xs[i], ys[j], zs[k]), v);
      FilteredAdmitted(FiltroSerieFamiliaData(zs[k], ys[j], xs[i]), v);
      assert FieldsSatisfy(v, FiltroSerieFamiliaData(zs[k], ys[j], xs[i]));
      assert xs[i] in xs && ys[j] in ys && zs[k] in zs;
    }
  }

  /** GetSerieFamilia collects only values of a listed family and series. */
  lemma GetSerieFamiliaSound(items: seq<Item>, pageItems: nat, valores: seq<ValorDynamoDB>)
    requires Answers(items, pageItems, Cross(ListaFamilia(valores), ListaSerie(valores), SerieFamiliaCall)).Ok?
    ensures forall v :: v in Answers(items, pageItems, Cross(ListaFamilia(valores), ListaSerie(valores), SerieFamiliaCall)).value ==>
      v.nomeFamilia in ListaFamilia(valores) && v.nomeSerie in ListaSerie(valores)
  {
    var xs, ys := ListaFamilia(valores), ListaSerie(valores);
    CrossAdmits(items, pageItems, xs, ys, SerieFamiliaCall);
    forall v | v in Answers(items, pageItems, Cross(xs, ys, SerieFamiliaCall)).value
      ensures v.nomeFamilia in xs && v.nomeSerie in ys
    {
      var i, j :| 0 <= i < |xs| && 0 <= j < |ys| && Admits(SerieFamiliaCall(xs[i], ys[j]), v);
      SerieFamiliaAdmitted(xs[i], ys[j], v);
    }
  }

  /** GetFiltroSerieFamilia collects only values satisfying the filter of a listed family and series. */
  lemma GetFiltroSerieFamiliaSound(items: seq<Item>, pageItems: nat, valores: seq<ValorDynamoDB>)
    requires Answers(items, pageItems, Cross(ListaFamilia(valores), ListaSerie(valores), FiltroSerieFamiliaCall)).Ok?
    ensures forall v :: v in Answers(items, pageItems, Cross(ListaFamilia(valores), ListaSerie(valores), FiltroSerieFamiliaCall)).value ==>
      exists f, s :: f in ListaFamilia(valores) && s in ListaSerie(valores) && FieldsSatisfy(v, FiltroSerieFamilia(s, f))
  {
    var xs, ys := ListaFamilia(valores), ListaSerie(valores);
    CrossAdmits(items, pageItems, xs, ys, FiltroSerieFamiliaCall);
    forall v | v in Answers(items, pageItems, Cross(xs, ys, FiltroSerieFamiliaCall)).value
      ensures exists f, s :: f in xs && s in ys && FieldsSatisfy(v, FiltroSerieFamilia(s, f))
    {
      var i, j :| 0 <= i < |xs| && 0 <= j < |ys| && Admits(FiltroSerieFamiliaCall(xs[i], ys[j]), v);
      FilteredAdmitted(FiltroSerieFamilia(ys[j], xs[i]), v);
      assert xs[i] in xs && ys[j] in ys && FieldsSatisfy(v, FiltroSerieFamilia(ys[j], xs[i]));
    }
  }

  /** GetSerieAtributoData collects only values sharing series, attribute and start date with an input. */
  lemma GetSerieAtributoDataSound(items: seq<Item>, pageItems: nat, valores: seq<ValorDynamoDB>)
    requires Answers(items, pageItems, Each(valores, SerieAtributoDataCall)).Ok?
    ensures forall v :: v in Answers(items, pageItems, Each(valores, SerieAtributoDataCall)).value ==>
      exists u :: u in valores && v.nomeSerie == u.nomeSerie && v.nomeAtributo == u.nomeAtributo && v.dataInicioVigencia == u.dataInicioVigencia
  {
    EachAdmits(items, pageItems, valores, SerieAtributoDataCall);
    forall v | v in Answers(items, pageItems, Each(valores, SerieAtributoDataCall)).value
      ensures exists u :: u in valores && v.nomeSerie == u.nomeSerie && v.nomeAtributo == u.nomeAtributo && v.dataInicioVigencia == u.dataInicioVigencia
    {
      var i :| 0 <= i < |valores| && Admits(SerieAtributoDataCall(valores[i]), v);
      SerieAtributoDataAdmitted(valores[i], v);
      assert valores[i] in valores;
    }
  }

  /** GetItemSerieAtributo collects only values of an input's series (the sort key is not read back). */
  lemma GetItemSerieAtributoSound(items: seq<Item>, pageItems: nat, valores: seq<ValorDynamoDB>)
    requires Answers(items, pageItems, Each(valores, ItemSerieAtributoCall)).Ok?
    ensures forall v :: v in Answers(items, pageItems, Each(valores, ItemSerieAtributoCall)).value ==>
      exists u :: u in valores && v.nomeSerie == u.nomeSerie
  {
    EachAdmits(items, pageItems, valores, ItemSerieAtributoCall);
    forall v | v in Answers(items, pageItems, Each(valores, ItemSerieAtributoCall)).value
      ensures exists u :: u in valores && v.nomeSerie == u.nomeSerie
    {
      var i :| 0 <= i < |valores| && Admits(ItemSerieAtributoCall(valores[i]), v);
      KeyAdmitted(valores[i], v);
      assert valores[i] in valores;
    }
  }

  /** GetSerieAtributo collects only values of a listed series and attribute. */
  lemma GetSerieAtributoSound(items: seq<Item>, pageItems: nat, valores: seq<ValorDynamoDB>)
    requires Answers(items, pageItems, Cross(ListaSerie(valores), ListaAtributo(valores), SerieAtributoCall)).Ok?
    ensures forall v :: v in Answers(items, pageItems, Cross(ListaSerie(valores), ListaAtributo(valores), SerieAtributoCall)).value ==>
      v.nomeSerie in ListaSerie(valores) && v.nomeAtributo in ListaAtributo(valores)
  {
    var xs, ys := ListaSerie(valores), ListaAtributo(valores);
    CrossAdmits(items, pageItems, xs, ys, SerieAtributoCall);
    forall v | v in Answers(items, pageItems, Cross(xs, ys, SerieAtributoCall)).value
      ensures v.nomeSerie in xs && v.nomeAtributo in ys
    {
      var i, j :| 0 <= i < |xs| && 0 <= j < |ys| && Admits(SerieAtributoCall(xs[i], ys[j]), v);
      SerieAtributoAdmitted(xs[i], ys[j], v);
    }
  }

  /** GetSerieData collects only values of a listed series and start date. */
  lemma GetSerieDataSound(items: seq<Item>, pageItems: nat, valores: seq<ValorDynamoDB>)
    requires Answers(items, pageItems, Cross(ListaData(valores), ListaSerie(valores), SerieDataCall)).Ok?
    ensures forall v :: v in Answers(items, pageItems, Cross(ListaData(valores), ListaSerie(valores), SerieDataCall)).value ==>
      v.nomeSerie in ListaSerie(valores) && v.dataInicioVigencia in ListaData(valores)
  {
    var xs, ys := ListaData(valores), ListaSerie(valores);
    CrossAdmits(items, pageItems, xs, ys, SerieDataCall);
    forall v | v in Answers(items, pageItems, Cross(xs, ys, SerieDataCall)).value
      ensures v.nomeSerie in ys && v.dataInicioVigencia in xs
    {
      var i, j :| 0 <= i < |xs| && 0 <= j < |ys| && Admits(SerieDataCall(xs[i], ys[j]), v);
      SerieDataAdmitted(xs[i], ys[j], v);
    }
  }

  /** GetSerie collects only values of a listed series. */
  lemma GetSerieSound(items: seq<Item>, pageItems: nat, valores: seq<ValorDynamoDB>)
    requires Answers(items, pageItems, Each(ListaSerie(valores), SerieCall)).Ok?
    ensures forall v :: v in Answers(items, pageItems, Each(ListaSerie(valores), SerieCall)).value ==>
      v.nomeSerie in ListaSerie(valores)
  {
    var xs := ListaSerie(valores);
    EachAdmits(items, pageItems, xs, SerieCall);
    forall v | v in Answers(items, pageItems, Each(xs, SerieCall)).value ensures v.nomeSerie in xs {
      var i :| 0 <= i < |xs| && Admits(SerieCall(xs[i]), v);
      SerieAdmitted(xs[i], v);
    }
  }

  /** GetFiltoFamilia collects only values satisfying the filter of a listed start date and family. */
  lemma GetFiltoFamiliaSound(items: seq<Item>, pageItems: nat, valores: seq<ValorDynamoDB>)
    requires Answers(items, pageItems, Cross(ListaData(valores), ListaFamilia(valores), FiltoFamiliaCall)).Ok?
    ensures forall v :: v in Answers(items, pageItems, Cross(ListaData(valores), ListaFamilia(valores), FiltoFamiliaCall)).value ==>
      v.dataInicioVigencia in ListaData(valores) && exists d, f :: d in ListaData(valores) && f in ListaFamilia(valores) && FieldsSatisfy(v, FiltroFamiliaData(f, d))
  {
    var xs, ys := ListaData(valores), ListaFamilia(valores);
    CrossAdmits(items, pageItems, xs, ys, FiltoFamiliaCall);
    forall v | v in Answers(items, pageItems, Cross(xs, ys, FiltoFamiliaCall)).value
      ensures v.dataInicioVigencia in xs && exists d, f :: d in xs && f in ys && FieldsSatisfy(v, FiltroFamiliaData(f, d))
    {
      var i, j :| 0 <= i < |xs| && 0 <= j < |ys| && Admits(FiltoFamiliaCall(xs[i], ys[j]), v);
      FilteredAdmitted(FiltroFamiliaData(ys[j], xs[i]), v);
      assert xs[i] in xs && ys[j] in ys && FieldsSatisfy(v, FiltroFamiliaData(ys[j], xs[i]));
    }
  }

  /** GetFiltoSerie collects only values satisfying the filter of a listed start date and series. */
  lemma GetFiltoSerieSound(items: seq<Item>, pageItems: nat, valores: seq<ValorDynamoDB>)
    requires Answers(items, pageItems, Cross(ListaData(valores), ListaSerie(valores), FiltoSerieCall)).Ok?
    ensures forall v :: v in Answers(items, pageItems, Cross(ListaData(valores), ListaSerie(valores), FiltoSerieCall)).value ==>
      v.dataInicioVigencia in ListaData(valores) && exists d, s :: d in ListaData(valores) && s in ListaSerie(valores) && FieldsSatisfy(v, FiltroSerieData(s, d))
  {
    var xs, ys := ListaData(valores), ListaSerie(valores);
    CrossAdmits(items, pageItems, xs, ys, FiltoSerieCall);
    forall v | v in Answers(items, pageItems, Cross(xs, ys, FiltoSerieCall)).value
      ensures v.dataInicioVigencia in xs && exists d, s :: d in xs && s in ys && FieldsSatisfy(v, FiltroSerieData(s, d))
    {
      var i, j :| 0 <= i < |xs| && 0 <= j < |ys| && Admits(FiltoSerieCall(xs[i], ys[j]), v);
      FilteredAdmitted(FiltroSerieData(ys[j], xs[i]), v);
      assert xs[i] in xs && ys[j] in ys && FieldsSatisfy(v, FiltroSerieData(ys[j], xs[i]));
    }
  }

  /** GetFiltoSerieAtributoData collects only values satisfying the filter built from one input. */
  lemma GetFiltoSerieAtributoDataSound(items: seq<Item>, pageItems: nat, valores: seq<ValorDynamoDB>)
    requires Answers(items, pageItems, Each(valores, FiltoSerieAtributoDataCall)).Ok?
    ensures forall v :: v in Answers(items, pageItems, Each(valores, FiltoSerieAtributoDataCall)).value ==>
      exists u :: u in valores && v.dataInicioVigencia == u.dataInicioVigencia && FieldsSatisfy(v, FiltroSerieAtributoData(u.nomeSerie, u.nomeAtributo, u.dataInicioVigencia))
  {
    EachAdmits(items, pageItems, valores, FiltoSerieAtributoDataCall);
    forall v | v in Answers(items, pageItems, Each(valores, FiltoSerieAtributoDataCall)).value
      ensures exists u :: u in valores && v.dataInicioVigencia == u.dataInicioVigencia && FieldsSatisfy(v, FiltroSerieAtributoData(u.nomeSerie, u.nomeAtributo, u.dataInicioVigencia))
    {
      var i :| 0 <= i < |valores| && Admits(FiltoSerieAtributoDataCall(valores[i]), v);
      FilteredAdmitted(FiltroSerieAtributoData(valores[i].nomeSerie, valores[i].nomeAtributo, valores[i].dataInicioVigencia), v);
      assert valores[i] in valores;
    }
  }

  /** GetFiltoSerieAtributo collects only values satisfying the filter of a listed series and attribute. */
  lemma GetFiltoSerieAtributoSound(items: seq<Item>, pageItems: nat, valores: seq<ValorDynamoDB>)
    requires Answers(items, pageItems, Cross(ListaSerie(valores), ListaAtributo(valores), FiltoSerieAtributoCall)).Ok?
    ensures forall v :: v in Answers(items, pageItems, Cross(ListaSerie(valores), ListaAtributo(valores), FiltoSerieAtributoCall)).value ==>
      exists s, a :: s in ListaSerie(valores) && a in ListaAtributo(valores) && FieldsSatisfy(v, FiltroSerieAtributo(s, a))
  {
    var xs, ys := ListaSerie(valores), ListaAtributo(valores);
    CrossAdmits(items, pageItems, xs, ys, FiltoSerieAtributoCall);
    forall v | v in Answers(items, pageItems, Cross(xs, ys, FiltoSerieAtributoCall)).value
      ensures exists s, a :: s in xs && a in ys && FieldsSatisfy(v, FiltroSerieAtributo(s, a))
    {
      var i, j :| 0 <= i < |xs| && 0 <= j < |ys| && Admits(FiltoSerieAtributoCall(xs[i], ys[j]), v);
      FilteredAdmitted(FiltroSerieAtributo(xs[i], ys[j]), v);
      assert xs[i] in xs && ys[j] in ys && FieldsSatisfy(v, FiltroSerieAtributo(xs[i], ys[j]));
    }
  }

  /** GetFiltroItemFamiliaAtributoData collects only values satisfying the filter built from one input (the sort-key clause is not read back). */
  lemma GetFiltroItemFamiliaAtributoDataSound(items: seq<Item>, pageItems: nat, valores: seq<ValorDynamoDB>)
    requires Answers(items, pageItems, Each(valores, FiltroItemFamiliaAtributoDataCall)).Ok?
    ensures forall v :: v in Answers(items, pageItems, Each(valores, FiltroItemFamiliaAtributoDataCall)).value ==>
      exists u :: u in valores && FieldsSatisfy(v, FiltroFamiliaSortKey(u.nomeFamilia, SortKey(u.nomeAtributo, u.dataInicioVigencia)))
  {
    EachAdmits(items, pageItems, valores, FiltroItemFamiliaAtributoDataCall);
    forall v | v in Answers(items, pageItems, Each(valores, FiltroItemFamiliaAtributoDataCall)).value
      ensures exists u :: u in valores && FieldsSatisfy(v, FiltroFamiliaSortKey(u.nomeFamilia, SortKey(u.nomeAtributo, u.dataInicioVigencia)))
    {
      var i :| 0 <= i < |valores| && Admits(FiltroItemFamiliaAtributoDataCall(valores[i]), v);
      FilteredAdmitted(FiltroFamiliaSortKey(valores[i].nomeFamilia, SortKey(valores[i].nomeAtributo, valores[i].dataInicioVigencia)), v);
      assert valores[i] in valores;
    }
  }

  /** GetFiltroFamiliaAtributoData collects only values satisfying the filter built from one input. */
  lemma GetFiltroFamiliaAtributoDataSound(items: seq<Item>, pageItems: nat, valores: seq<ValorDynamoDB>)
    requires Answers(items, pageItems, Each(valores, FiltroFamiliaAtributoDataCall)).Ok?
    ensures forall v :: v in Answers(items, pageItems, Each(valores, FiltroFamiliaAtributoDataCall)).value ==>
      exists u :: u in valores && v.dataInicioVigencia == u.dataInicioVigencia && FieldsSatisfy(v, FiltroFamiliaAtributoData(u.nomeFamilia, u.nomeAtributo, u.dataInicioVigencia))
  {
    EachAdmits(items, pageItems, valores, FiltroFamiliaAtributoDataCall);
    forall v | v in Answers(items, pageItems, Each(valores, FiltroFamiliaAtributoDataCall)).value
      ensures exists u :: u in valores && v.dataInicioVigencia == u.dataInicioVigencia && FieldsSatisfy(v, FiltroFamiliaAtributoData(u.nomeFamilia, u.nomeAtributo, u.dataInicioVigencia))
    {
      var i :| 0 <= i < |valores| && Admits(FiltroFamiliaAtributoDataCall(valores[i]), v);
      FilteredAdmitted(FiltroFamiliaAtributoData(valores[i].nomeFamilia, valores[i].nomeAtributo, valores[i].dataInicioVigencia), v);
      assert valores[i] in valores;
    }
  }

  /** GetFiltroFamiliaAtributo collects only values satisfying the filter built from one input. */
  lemma GetFiltroFamiliaAtributoSound(items: seq<Item>, pageItems: nat, valores: seq<ValorDynamoDB>)
    requires Answers(items, pageItems, Each(valores, FiltroFamiliaAtributoCall)).Ok?
    ensures forall v :: v in Answers(items, pageItems, Each(valores, FiltroFamiliaAtributoCall)).value ==>
      exists u :: u in valores && FieldsSatisfy(v, FiltroFamiliaAtributo(u.nomeFamilia, u.nomeAtributo))
  {
    EachAdmits(items, pageItems, valores, FiltroFamiliaAtributoCall);
    forall v | v in Answers(items, pageItems, Each(valores, FiltroFamiliaAtributoCall)).value
      ensures exists u :: u in valores && FieldsSatisfy(v, FiltroFamiliaAtributo(u.nomeFamilia, u.nomeAtributo))
    {
      var i :| 0 <= i < |valores| && Admits(FiltroFamiliaAtributoCall(valores[i]), v);
      FilteredAdmitted(FiltroFamiliaAtributo(valores[i].nomeFamilia, valores[i].nomeAtributo), v);
      assert valores[i] in valores;
    }
  }

  /** GetFiltoSerieData collects only values satisfying the filter built from one input (the sort-key clause is not read back). */
  lemma GetFiltoSerieDataSound(items: seq<Item>, pageItems: nat, valores: seq<ValorDynamoDB>)
    requires Answers(items, pageItems, Each(valores, FiltoSerieDataCall)).Ok?
    ensures forall v :: v in Answers(items, pageItems, Each(valores, FiltoSerieDataCall)).value ==>
      exists u :: u in valores && FieldsSatisfy(v, FiltroSerieSortKey(u.nomeSerie, SortKey(u.nomeAtributo, u.dataInicioVigencia)))
  {
    EachAdmits(items, pageItems, valores, FiltoSerieDataCall);
    forall v | v in Answers(items, pageItems, Each(valores, FiltoSerieDataCall)).value
      ensures exists u :: u in valores && FieldsSatisfy(v, FiltroSerieSortKey(u.nomeSerie, SortKey(u.nomeAtributo, u.dataInicioVigencia)))
    {
      var i :| 0 <= i < |valores| && Admits(FiltoSerieDataCall(valores[i]), v);
      FilteredAdmitted(FiltroSerieSortKey(valores[i].nomeSerie, SortKey(valores[i].nomeAtributo, valores[i].dataInicioVigencia)), v);
      assert valores[i] in valores;
    }
  }

  // ---------------------------------------------------------------------------
  // Completeness when the table fits on one page

  /** A stored value among the items a query keeps is read back, to the second. */
  lemma QueryReturnsStored(items: seq<Item>, q: QueryRequest, pageItems: nat, v: ValorDynamoDB)
    requires RunQuery(items, q, pageItems).Ok? && ConvertToItem(v) in QueryItems(items, q, pageItems)
    ensures Truncated(v) in RunQuery(items, q, pageItems).value
  {
    var found := QueryItems(items, q, pageItems);
    MapResultProps(found, ConvertFromItemInvariant);
    var m :| 0 <= m < |found| && found[m] == ConvertToItem(v);
    ConvertRoundTripInvariant(v);
    assert RunQuery(items, q, pageItems).value[m] == Truncated(v);
  }

  /** A stored value among the items a scan keeps is read back, to the second. */
  lemma ScanReturnsStored(items: seq<Item>, f: ScanFilter, pageItems: nat, v: ValorDynamoDB)
    requires ConvertAll(ScanItems(items, f, pageItems)).Ok? && ConvertToItem(v) in ScanItems(items, f, pageItems)
    ensures Truncated(v) in ConvertAll(ScanItems(items, f, pageItems)).value
  {
    var found := ScanItems(items, f, pageItems);
    MapResultProps(found, ConvertFromItemInvariant);
    var m :| 0 <= m < |found| && found[m] == ConvertToItem(v);
    ConvertRoundTripInvariant(v);
    assert ConvertAll(found).value[m] == Truncated(v);
  }

  /** A named query selects a written value exactly when the value's fields
      meet the call's arguments. */
  lemma QueryPicks(c: Call, v: ValorDynamoDB)
    requires IsQuery(c)
    ensures Selects(RequestOf(c), ConvertToItem(v)) <==> Picks(c, v)
  {
    match c
    case ByFamiliaData(f, d) => FamiliaDataSelectsStored(f, d, v);
    case ByFamilia(f) => FamiliaSelectsStored(f, v);
    case BySerieFamiliaData(s, f, d) => SerieFamiliaDataSelectsStored(s, f, d, v);
    case BySerieFamilia(s, f) => SerieFamiliaSelectsStored(s, f, v);
    case BySerieAtributoData(s, a, d) => SerieAtributoDataSelectsStored(s, a, d, v);
    case BySerieAtributo(s, a) => SerieAtributoSelectsStored(s, a, v);
    case ByItemSerieAtributo(s, k) =>
      if SortKey(v.nomeAtributo, v.dataInicioVigencia) == k {
        ItemSerieAtributoSelectsStored(s, v.nomeAtributo, v.dataInicioVigencia, v);
      } else {
        StoredQueryAttributes(v);
        SelectsShort(RequestOf(c), ConvertToItem(v));
      }
    case BySerieData(s, d) => SerieDataSelectsStored(s, d, v);
    case BySerie(s) => SerieSelectsStored(s, v);
  }

  /** The primary-key lookup of a table with unique keys finds a stored value
      under its own key and reads it back, to the second. */
  lemma KeyReturnsStored(items: seq<Item>, v: ValorDynamoDB)
    requires KeysUnique(items) && ConvertToItem(v) in items
    ensures KeyItem(items, v.nomeSerie, SortKey(v.nomeAtributo, v.dataInicioVigencia)) == Ok(Truncated(v))
  {
    var key := ValorKey(v);
    var j :| 0 <= j < |items| && items[j] == ConvertToItem(v);
    var found := Lookup(items, key);
    assert found.Some?;
    var i :| 0 <= i < |items| && items[i] == found.value;
    assert i == j;
    ConvertRoundTripInvariant(v);
  }

  /** When the table fits on one page, a call answers with every written value
      it picks; a lookup needs the table's keys to be unique. */
  lemma AnswerComplete(items: seq<Item>, pageItems: nat, c: Call, v: ValorDynamoDB)
    requires |items| <= pageItems && Answer(items, pageItems, c).Ok?
    requires ConvertToItem(v) in items && Picks(c, v)
    requires c.ByKey? ==> KeysUnique(items)
    ensures Truncated(v) in Answer(items, pageItems, c).value
  {
    match c
    case Filtered(f) =>
      ScanResults(items, f, pageItems);
      ScanReturnsStored(items, f, pageItems, v);
    case ByKey(s, k) =>
      KeyReturnsStored(items, v);
    case _ =>
      var q := RequestOf(c);
      QueryPicks(c, v);
      QueryItemsProps(items, q, pageItems);
      QueryReturnsStored(items, q, pageItems, v);
  }

  /** A loop's result list holds every written value one of its calls picks. */
  lemma AnswersComplete(items: seq<Item>, pageItems: nat, calls: seq<Call>, k: nat, v: ValorDynamoDB)
    requires |items| <= pageItems && Answers(items, pageItems, calls).Ok? && k < |calls|
    requires ConvertToItem(v) in items && Picks(calls[k], v)
    requires calls[k].ByKey? ==> KeysUnique(items)
    ensures Truncated(v) in Answers(items, pageItems, calls).value
  {
    FlatMapResultContains(calls, AnswerOf(items, pageItems), k, Truncated(v));
    AnswerComplete(items, pageItems, calls[k], v);
  }

  lemma EachComplete<A>(items: seq<Item>, pageItems: nat, xs: seq<A>, f: A -> Call)
    requires |items| <= pageItems && Answers(items, pageItems, Each(xs, f)).Ok?
    ensures forall i, v :: (0 <= i < |xs| && ConvertToItem(v) in items && Picks(f(xs[i]), v)
                            && (f(xs[i]).ByKey? ==> KeysUnique(items))) ==>
      Truncated(v) in Answers(items, pageItems, Each(xs, f)).value
  {
    forall i, v | 0 <= i < |xs| && ConvertToItem(v) in items && Picks(f(xs[i]), v) && (f(xs[i]).ByKey? ==> KeysUnique(items))
      ensures Truncated(v) in Answers(items, pageItems, Each(xs, f)).value
    {
      AnswersComplete(items, pageItems, Each(xs, f), i, v);
    }
  }

  lemma CrossComplete<A, B>(items: seq<Item>, pageItems: nat, xs: seq<A>, ys: seq<B>, f: (A, B) -> Call)
    requires |items| <= pageItems && Answers(items, pageItems, Cross(xs, ys, f)).Ok?
    ensures forall i, j, v :: (0 <= i < |xs| && 0 <= j < |ys| && ConvertToItem(v) in items && Picks(f(xs[i], ys[j]), v)
                               && (f(xs[i], ys[j]).ByKey? ==> KeysUnique(items))) ==>
      Truncated(v) in Answers(items, pageItems, Cross(xs, ys, f)).value
  {
    var calls := Cross(xs, ys, f);
    forall i, j, v | 0 <= i < |xs| && 0 <= j < |ys| && ConvertToItem(v) in items && Picks(f(xs[i], ys[j]), v)
      && (f(xs[i], ys[j]).ByKey? ==> KeysUnique(items))
      ensures Truncated(v) in Answers(items, pageItems, calls).value
    {
      CrossContains(xs, ys, f, i, j);
      var k :| 0 <= k < |calls| && calls[k] == f(xs[i], ys[j]);
      AnswersComplete(items, pageItems, calls, k, v);
    }
  }

  lemma Cross3Complete<A, B, D>(items: seq<Item>, pageItems: nat, xs: seq<A>, ys: seq<B>, zs: seq<D>, f: (A, B, D) -> Call)
    requires |items| <= pageItems && Answers(items, pageItems, Cross3(xs, ys, zs, f)).Ok?
    ensures forall i, j, l, v :: (0 <= i < |xs| && 0 <= j < |ys| && 0 <= l < |zs| && ConvertToItem(v) in items
                                  && Picks(f(xs[i], ys[j], zs[l]), v) && (f(xs[i], ys[j], zs[l]).ByKey? ==> KeysUnique(items))) ==>
        Truncated(v) in Answers(items, pageItems, Cross3(xs, ys, zs, f)).value
  {
    var calls := Cross3(xs, ys, zs, f);
    forall i, j, l, v | 0 <= i < |xs| && 0 <= j < |ys| && 0 <= l < |zs| && ConvertToItem(v) in items
      && Picks(f(xs[i], ys[j], zs[l]), v) && (f(xs[i], ys[j], zs[l]).ByKey? ==> KeysUnique(items))
      ensures Truncated(v) in Answers(items, pageItems, calls).value
    {
      Cross3Contains(xs, ys, zs, f, i, j, l);
      var k :| 0 <= k < |calls| && calls[k] == f(xs[i], ys[j], zs[l]);
      AnswersComplete(items, pageItems, calls, k, v);
    }
  }

  /** Two values with the same series, attribute and start date: the same
      primary key. */
  predicate SameEntry(u: ValorDynamoDB, v: ValorDynamoDB)
  {
    u.nomeSerie == v.nomeSerie && u.nomeAtributo == v.nomeAtributo && u.dataInicioVigencia == v.dataInicioVigencia
  }

  // Per read loop: when the table fits on one page, the loop collects every
  // stored value whose fields match one of the calls it makes.
  /** GetFamiliaData collects every stored value of a listed family and start date. */
  lemma GetFamiliaDataComplete(items: seq<Item>, pageItems: nat, valores: seq<ValorDynamoDB>)
    requires |items| <= pageItems
    requires Answers(items, pageItems, Cross(ListaFamilia(valores), ListaData(valores), FamiliaDataCall)).Ok?
    ensures forall v :: ConvertToItem(v) in items && v.nomeFamilia in ListaFamilia(valores) && v.dataInicioVigencia in ListaData(valores) ==>
      Truncated(v) in Answers(items, pageItems, Cross(ListaFamilia(valores), ListaData(valores), FamiliaDataCall)).value
  {
    var fs, ds := ListaFamilia(valores), ListaData(valores);
    CrossComplete(items, pageItems, fs, ds, FamiliaDataCall);
    forall v | ConvertToItem(v) in items && v.nomeFamilia in fs && v.dataInicioVigencia in ds
      ensures Truncated(v) in Answers(items, pageItems, Cross(fs, ds, FamiliaDataCall)).value
    {
      var i :| 0 <= i < |fs| && fs[i] == v.nomeFamilia;
      var j :| 0 <= j < |ds| && ds[j] == v.dataInicioVigencia;
      assert Picks(FamiliaDataCall(fs[i], ds[j]), v);
    }
  }

  /** GetFiltroFamiliaData collects every stored value of a listed family and start date. */
  lemma GetFiltroFamiliaDataComplete(items: seq<Item>, pageItems: nat, valores: seq<ValorDynamoDB>)
    requires |items| <= pageItems
    requires Answers(items, pageItems, Cross(ListaFamilia(valores), ListaData(valores), FiltroFamiliaDataCall)).Ok?
    ensures forall v :: ConvertToItem(v) in items && v.nomeFamilia in ListaFamilia(valores) && v.dataInicioVigencia in ListaData(valores) ==>
      Truncated(v) in Answers(items, pageItems, Cross(ListaFamilia(valores), ListaData(valores), FiltroFamiliaDataCall)).value
  {
    var fs, ds := ListaFamilia(valores), ListaData(valores);
    CrossComplete(items, pageItems, fs, ds, FiltroFamiliaDataCall);
    forall v | ConvertToItem(v) in items && v.nomeFamilia in fs && v.dataInicioVigencia in ds
      ensures Truncated(v) in Answers(items, pageItems, Cross(fs, ds, FiltroFamiliaDataCall)).value
    {
      var i :| 0 <= i < |fs| && fs[i] == v.nomeFamilia;
      var j :| 0 <= j < |ds| && ds[j] == v.dataInicioVigencia;
      assert Picks(FiltroFamiliaDataCall(fs[i], ds[j]), v);
    }
  }

  /** The lookup loop collects every stored value sharing its primary key with an input. */
  lemma GetItemDataComplete(items: seq<Item>, pageItems: nat, valores: seq<ValorDynamoDB>)
    requires |items| <= pageItems
    requires KeysUnique(items)
    requires Answers(items, pageItems, Each(valores, KeyCall)).Ok?
    ensures forall u, v :: u in valores && ConvertToItem(v) in items && SameEntry(u, v) ==>
      Truncated(v) in Answers(items, pageItems, Each(valores, KeyCall)).value
  {
    EachComplete(items, pageItems, valores, KeyCall);
    forall u, v | u in valores && ConvertToItem(v) in items && SameEntry(u, v)
      ensures Truncated(v) in Answers(items, pageItems, Each(valores, KeyCall)).value
    {
      var i :| 0 <= i < |valores| && valores[i] == u;
      assert Picks(KeyCall(valores[i]), v);
    }
  }

  /** GetFamilia collects every stored value of a listed family. */
  lemma GetFamiliaComplete(items: seq<Item>, pageItems: nat, valores: seq<ValorDynamoDB>)
    requires |items| <= pageItems
    requires Answers(items, pageItems, Each(ListaFamilia(valores), FamiliaCall)).Ok?
    ensures forall v :: ConvertToItem(v) in items && v.nomeFamilia in ListaFamilia(valores) ==>
      Truncated(v) in Answers(items, pageItems, Each(ListaFamilia(valores), FamiliaCall)).value
  {
    var fs := ListaFamilia(valores);
    EachComplete(items, pageItems, fs, FamiliaCall);
    forall v | ConvertToItem(v) in items && v.nomeFamilia in fs
      ensures Truncated(v) in Answers(items, pageItems, Each(fs, FamiliaCall)).value
    {
      var i :| 0 <= i < |fs| && fs[i] == v.nomeFamilia;
      assert Picks(FamiliaCall(fs[i]), v);
    }
  }

  /** GetSerieFamiliaData collects every stored value of a listed start date, family and series. */
  lemma GetSerieFamiliaDataComplete(items: seq<Item>, pageItems: nat, valores: seq<ValorDynamoDB>)
    requires |items| <= pageItems
    requires Answers(items, pageItems, Cross3(ListaData(valores), ListaFamilia(valores), ListaSerie(valores), SerieFamiliaDataCall)).Ok?
    ensures forall v :: ConvertToItem(v) in items && v.dataInicioVigencia in ListaData(valores) && v.nomeFamilia in ListaFamilia(valores) && v.nomeSerie in ListaSerie(valores) ==>
      Truncated(v) in Answers(items, pageItems, Cross3(ListaData(valores), ListaFamilia(valores), ListaSerie(valores), SerieFamiliaDataCall)).value
  {
    var ds, fs, ss := ListaData(valores), ListaFamilia(valores), ListaSerie(valores);
    Cross3Complete(items, pageItems, ds, fs, ss, SerieFamiliaDataCall);
    forall v | ConvertToItem(v) in items && v.dataInicioVigencia in ds && v.nomeFamilia in fs && v.nomeSerie in ss
      ensures Truncated(v) in Answers(items, pageItems, Cross3(ds, fs, ss, SerieFamiliaDataCall)).value
    {
      var i :| 0 <= i < |ds| && ds[i] == v.dataInicioVigencia;
      var j :| 0 <= j < |fs| && fs[j] == v.nomeFamilia;
      var l :| 0 <= l < |ss| && ss[l] == v.nomeSerie;
      assert Picks(SerieFamiliaDataCall(ds[i], fs[j], ss[l]), v);
    }
  }

  /** GetFiltroSerieFamiliaData collects every stored value of a listed start date, family and series. */
  lemma GetFiltroSerieFamiliaDataComplete(items: seq<Item>, pageItems: nat, valores: seq<ValorDynamoDB>)
    requires |items| <= pageItems
    requires Answers(items, pageItems, Cross3(ListaData(valores), ListaFamilia(valores), ListaSerie(valores), FiltroSerieFamiliaDataCall)).Ok?
    ensures forall v :: ConvertToItem(v) in items && v.dataInicioVigencia in ListaData(valores) && v.nomeFamilia in ListaFamilia(valores) && v.nomeSerie in ListaSerie(valores) ==>
      Truncated(v) in Answers(items, pageItems, Cross3(ListaData(valores), ListaFamilia(valores), ListaSerie(valores), FiltroSerieFamiliaDataCall)).value
  {
    var ds, fs, ss := ListaData(valores), ListaFamilia(valores), ListaSerie(valores);
    Cross3Complete(items, pageItems, ds, fs, ss, FiltroSerieFamiliaDataCall);
    forall v | ConvertToItem(v) in items && v.dataInicioVigencia in ds && v.nomeFamilia in fs && v.nomeSerie in ss
      ensures Truncated(v) in Answers(items, pageItems, Cross3(ds, fs, ss, FiltroSerieFamiliaDataCall)).value
    {
      var i :| 0 <= i < |ds| && ds[i] == v.dataInicioVigencia;
      var j :| 0 <= j < |fs| && fs[j] == v.nomeFamilia;
      var l :| 0 <= l < |ss| && ss[l] == v.nomeSerie;
      assert Picks(FiltroSerieFamiliaDataCall(ds[i], fs[j], ss[l]), v);
    }
  }

  /** GetSerieFamilia collects every stored value of a listed family and series. */
  lemma GetSerieFamiliaComplete(items: seq<Item>, pageItems: nat, valores: seq<ValorDynamoDB>)
    requires |items| <= pageItems
    requires Answers(items, pageItems, Cross(ListaFamilia(valores), ListaSerie(valores), SerieFamiliaCall)).Ok?
    ensures forall v :: ConvertToItem(v) in items && v.nomeFamilia in ListaFamilia(valores) && v.nomeSerie in ListaSerie(valores) ==>
      Truncated(v) in Answers(items, pageItems, Cross(ListaFamilia(valores), ListaSerie(valores), SerieFamiliaCall)).value
  {
    var fs, ss := ListaFamilia(valores), ListaSerie(valores);
    CrossComplete(items, pageItems, fs, ss, SerieFamiliaCall);
    forall v | ConvertToItem(v) in items && v.nomeFamilia in fs && v.nomeSerie in ss
      ensures Truncated(v) in Answers(items, pageItems, Cross(fs, ss, SerieFamiliaCall)).value
    {
      var i :| 0 <= i < |fs| && fs[i] == v.nomeFamilia;
      var j :| 0 <= j < |ss| && ss[j] == v.nomeSerie;
      assert Picks(SerieFamiliaCall(fs[i], ss[j]), v);
    }
  }

  /** GetFiltroSerieFamilia collects every stored value of a listed family and series. */
  lemma GetFiltroSerieFamiliaComplete(items: seq<Item>, pageItems: nat, valores: seq<ValorDynamoDB>)
    requires |items| <= pageItems
    requires Answers(items, pageItems, Cross(ListaFamilia(valores), ListaSerie(valores), FiltroSerieFamiliaCall)).Ok?
    ensures forall v :: ConvertToItem(v) in items && v.nomeFamilia in ListaFamilia(valores) && v.nomeSerie in ListaSerie(valores) ==>
      Truncated(v) in Answers(items, pageItems, Cross(ListaFamilia(valores), ListaSerie(valores), FiltroSerieFamiliaCall)).value
  {
    var fs, ss := ListaFamilia(valores), ListaSerie(valores);
    CrossComplete(items, pageItems, fs, ss, FiltroSerieFamiliaCall);
    forall v | ConvertToItem(v) in items && v.nomeFamilia in fs && v.nomeSerie in ss
      ensures Truncated(v) in Answers(items, pageItems, Cross(fs, ss, FiltroSerieFamiliaCall)).value
    {
      var i :| 0 <= i < |fs| && fs[i] == v.nomeFamilia;
      var j :| 0 <= j < |ss| && ss[j] == v.nomeSerie;
      assert Picks(FiltroSerieFamiliaCall(fs[i], ss[j]), v);
    }
  }

  /** GetSerieAtributoData collects every stored value sharing series, attribute and start date with an input. */
  lemma GetSerieAtributoDataComplete(items: seq<Item>, pageItems: nat, valores: seq<ValorDynamoDB>)
    requires |items| <= pageItems
    requires Answers(items, pageItems, Each(valores, SerieAtributoDataCall)).Ok?
    ensures forall u, v :: u in valores && ConvertToItem(v) in items && SameEntry(u, v) ==>
      Truncated(v) in Answers(items, pageItems, Each(valores, SerieAtributoDataCall)).value
  {
    EachComplete(items, pageItems, valores, SerieAtributoDataCall);
    forall u, v | u in valores && ConvertToItem(v) in items && SameEntry(u, v)
      ensures Truncated(v) in Answers(items, pageItems, Each(valores, SerieAtributoDataCall)).value
    {
      var i :| 0 <= i < |valores| && valores[i] == u;
      assert Picks(SerieAtributoDataCall(valores[i]), v);
    }
  }

  /** GetItemSerieAtributo collects every stored value sharing its primary key with an input. */
  lemma GetItemSerieAtributoComplete(items: seq<Item>, pageItems: nat, valores: seq<ValorDynamoDB>)
    requires |items| <= pageItems
    requires Answers(items, pageItems, Each(valores, ItemSerieAtributoCall)).Ok?
    ensures forall u, v :: u in valores && ConvertToItem(v) in items && SameEntry(u, v) ==>
      Truncated(v) in Answers(items, pageItems, Each(valores, ItemSerieAtributoCall)).value
  {
    EachComplete(items, pageItems, valores, ItemSerieAtributoCall);
    forall u, v | u in valores && ConvertToItem(v) in items && SameEntry(u, v)
      ensures Truncated(v) in Answers(items, pageItems, Each(valores, ItemSerieAtributoCall)).value
    {
      var i :| 0 <= i < |valores| && valores[i] == u;
      assert Picks(ItemSerieAtributoCall(valores[i]), v);
    }
  }

  /** GetSerieAtributo collects every stored value of a listed series and attribute. */
  lemma GetSerieAtributoComplete(items: seq<Item>, pageItems: nat, valores: seq<ValorDynamoDB>)
    requires |items| <= pageItems
    requires Answers(items, pageItems, Cross(ListaSerie(valores), ListaAtributo(valores), SerieAtributoCall)).Ok?
    ensures forall v :: ConvertToItem(v) in items && v.nomeSerie in ListaSerie(valores) && v.nomeAtributo in ListaAtributo(valores) ==>
      Truncated(v) in Answers(items, pageItems, Cross(ListaSerie(valores), ListaAtributo(valores), SerieAtributoCall)).value
  {
    var ss, ats := ListaSerie(valores), ListaAtributo(valores);
    CrossComplete(items, pageItems, ss, ats, SerieAtributoCall);
    forall v | ConvertToItem(v) in items && v.nomeSerie in ss && v.nomeAtributo in ats
      ensures Truncated(v) in Answers(items, pageItems, Cross(ss, ats, SerieAtributoCall)).value
    {
      var i :| 0 <= i < |ss| && ss[i] == v.nomeSerie;
      var j :| 0 <= j < |ats| && ats[j] == v.nomeAtributo;
      assert Picks(SerieAtributoCall(ss[i], ats[j]), v);
    }
  }

  /** GetSerieData collects every stored value of a listed start date and series. */
  lemma GetSerieDataComplete(items: seq<Item>, pageItems: nat, valores: seq<ValorDynamoDB>)
    requires |items| <= pageItems
    requires Answers(items, pageItems, Cross(ListaData(valores), ListaSerie(valores), SerieDataCall)).Ok?
    ensures forall v :: ConvertToItem(v) in items && v.dataInicioVigencia in ListaData(valores) && v.nomeSerie in ListaSerie(valores) ==>
      Truncated(v) in Answers(items, pageItems, Cross(ListaData(valores), ListaSerie(valores), SerieDataCall)).value
  {
    var ds, ss := ListaData(valores), ListaSerie(valores);
    CrossComplete(items, pageItems, ds, ss, SerieDataCall);
    forall v | ConvertToItem(v) in items && v.dataInicioVigencia in ds && v.nomeSerie in ss
      ensures Truncated(v) in Answers(items, pageItems, Cross(ds, ss, SerieDataCall)).value
    {
      var i :| 0 <= i < |ds| && ds[i] == v.dataInicioVigencia;
      var j :| 0 <= j < |ss| && ss[j] == v.nomeSerie;
      assert Picks(SerieDataCall(ds[i], ss[j]), v);
    }
  }

  /** GetSerie collects every stored value of a listed series. */
  lemma GetSerieComplete(items: seq<Item>, pageItems: nat, valores: seq<ValorDynamoDB>)
    requires |items| <= pageItems
    requires Answers(items, pageItems, Each(ListaSerie(valores), SerieCall)).Ok?
    ensures forall v :: ConvertToItem(v) in items && v.nomeSerie in ListaSerie(valores) ==>
      Truncated(v) in Answers(items, pageItems, Each(ListaSerie(valores), SerieCall)).value
  {
    var ss := ListaSerie(valores);
    EachComplete(items, pageItems, ss, SerieCall);
    forall v | ConvertToItem(v) in items && v.nomeSerie in ss
      ensures Truncated(v) in Answers(items, pageItems, Each(ss, SerieCall)).value
    {
      var i :| 0 <= i < |ss| && ss[i] == v.nomeSerie;
      assert Picks(SerieCall(ss[i]), v);
    }
  }

  /** GetFiltoFamilia collects every stored value of a listed start date and family. */
  lemma GetFiltoFamiliaComplete(items: seq<Item>, pageItems: nat, valores: seq<ValorDynamoDB>)
    requires |items| <= pageItems
    requires Answers(items, pageItems, Cross(ListaData(valores), ListaFamilia(valores), FiltoFamiliaCall)).Ok?
    ensures forall v :: ConvertToItem(v) in items && v.dataInicioVigencia in ListaData(valores) && v.nomeFamilia in ListaFamilia(valores) ==>
      Truncated(v) in Answers(items, pageItems, Cross(ListaData(valores), ListaFamilia(valores), FiltoFamiliaCall)).value
  {
    var ds, fs := ListaData(valores), ListaFamilia(valores);
    CrossComplete(items, pageItems, ds, fs, FiltoFamiliaCall);
    forall v | ConvertToItem(v) in items && v.dataInicioVigencia in ds && v.nomeFamilia in fs
      ensures Truncated(v) in Answers(items, pageItems, Cross(ds, fs, FiltoFamiliaCall)).value
    {
      var i :| 0 <= i < |ds| && ds[i] == v.dataInicioVigencia;
      var j :| 0 <= j < |fs| && fs[j] == v.nomeFamilia;
      assert Picks(FiltoFamiliaCall(ds[i], fs[j]), v);
    }
  }

  /** GetFiltoSerie collects every stored value of a listed start date and series. */
  lemma GetFiltoSerieComplete(items: seq<Item>, pageItems: nat, valores: seq<ValorDynamoDB>)
    requires |items| <= pageItems
    requires Answers(items, pageItems, Cross(ListaData(valores), ListaSerie(valores), FiltoSerieCall)).Ok?
    ensures forall v :: ConvertToItem(v) in items && v.dataInicioVigencia in ListaData(valores) && v.nomeSerie in ListaSerie(valores) ==>
      Truncated(v) in Answers(items, pageItems, Cross(ListaData(valores), ListaSerie(valores), FiltoSerieCall)).value
  {
    var ds, ss := ListaData(valores), ListaSerie(valores);
    CrossComplete(items, pageItems, ds, ss, FiltoSerieCall);
    forall v | ConvertToItem(v) in items && v.dataInicioVigencia in ds && v.nomeSerie in ss
      ensures Truncated(v) in Answers(items, pageItems, Cross(ds, ss, FiltoSerieCall)).value
    {
      var i :| 0 <= i < |ds| && ds[i] == v.dataInicioVigencia;
      var j :| 0 <= j < |ss| && ss[j] == v.nomeSerie;
      assert Picks(FiltoSerieCall(ds[i], ss[j]), v);
    }
  }

  /** GetFiltoSerieAtributoData collects every stored value sharing series, attribute and start date with an input. */
  lemma GetFiltoSerieAtributoDataComplete(items: seq<Item>, pageItems: nat, valores: seq<ValorDynamoDB>)
    requires |items| <= pageItems
    requires Answers(items, pageItems, Each(valores, FiltoSerieAtributoDataCall)).Ok?
    ensures forall u, v :: u in valores && ConvertToItem(v) in items && SameEntry(u, v) ==>
      Truncated(v) in Answers(items, pageItems, Each(valores, FiltoSerieAtributoDataCall)).value
  {
    EachComplete(items, pageItems, valores, FiltoSerieAtributoDataCall);
    forall u, v | u in valores && ConvertToItem(v) in items && SameEntry(u, v)
      ensures Truncated(v) in Answers(items, pageItems, Each(valores, FiltoSerieAtributoDataCall)).value
    {
      var i :| 0 <= i < |valores| && valores[i] == u;
      assert Picks(FiltoSerieAtributoDataCall(valores[i]), v);
    }
  }

  /** GetFiltoSerieAtributo collects every stored value of a listed series and attribute. */
  lemma GetFiltoSerieAtributoComplete(items: seq<Item>, pageItems: nat, valores: seq<ValorDynamoDB>)
    requires |items| <= pageItems
    requires Answers(items, pageItems, Cross(ListaSerie(valores), ListaAtributo(valores), FiltoSerieAtributoCall)).Ok?
    ensures forall v :: ConvertToItem(v) in items && v.nomeSerie in ListaSerie(valores) && v.nomeAtributo in ListaAtributo(valores) ==>
      Truncated(v) in Answers(items, pageItems, Cross(ListaSerie(valores), ListaAtributo(valores), FiltoSerieAtributoCall)).value
  {
    var ss, ats := ListaSerie(valores), ListaAtributo(valores);
    CrossComplete(items, pageItems, ss, ats, FiltoSerieAtributoCall);
    forall v | ConvertToItem(v) in items && v.nomeSerie in ss && v.nomeAtributo in ats
      ensures Truncated(v) in Answers(items, pageItems, Cross(ss, ats, FiltoSerieAtributoCall)).value
    {
      var i :| 0 <= i < |ss| && ss[i] == v.nomeSerie;
      var j :| 0 <= j < |ats| && ats[j] == v.nomeAtributo;
      assert Picks(FiltoSerieAtributoCall(ss[i], ats[j]), v);
    }
  }

  /** GetFiltroItemFamiliaAtributoData collects every stored value sharing family, attribute and start date with an input. */
  lemma GetFiltroItemFamiliaAtributoDataComplete(items: seq<Item>, pageItems: nat, valores: seq<ValorDynamoDB>)
    requires |items| <= pageItems
    requires Answers(items, pageItems, Each(valores, FiltroItemFamiliaAtributoDataCall)).Ok?
    ensures forall u, v :: u in valores && ConvertToItem(v) in items && u.nomeFamilia == v.nomeFamilia && u.nomeAtributo == v.nomeAtributo && u.dataInicioVigencia == v.dataInicioVigencia ==>
      Truncated(v) in Answers(items, pageItems, Each(valores, FiltroItemFamiliaAtributoDataCall)).value
  {
    EachComplete(items, pageItems, valores, FiltroItemFamiliaAtributoDataCall);
    forall u, v | u in valores && ConvertToItem(v) in items && u.nomeFamilia == v.nomeFamilia && u.nomeAtributo == v.nomeAtributo && u.dataInicioVigencia == v.dataInicioVigencia
      ensures Truncated(v) in Answers(items, pageItems, Each(valores, FiltroItemFamiliaAtributoDataCall)).value
    {
      var i :| 0 <= i < |valores| && valores[i] == u;
      assert Picks(FiltroItemFamiliaAtributoDataCall(valores[i]), v);
    }
  }

  /** GetFiltroFamiliaAtributoData collects every stored value sharing family, attribute and start date with an input. */
  lemma GetFiltroFamiliaAtributoDataComplete(items: seq<Item>, pageItems: nat, valores: seq<ValorDynamoDB>)
    requires |items| <= pageItems
    requires Answers(items, pageItems, Each(valores, FiltroFamiliaAtributoDataCall)).Ok?
    ensures forall u, v :: u in valores && ConvertToItem(v) in items && u.nomeFamilia == v.nomeFamilia && u.nomeAtributo == v.nomeAtributo && u.dataInicioVigencia == v.dataInicioVigencia ==>
      Truncated(v) in Answers(items, pageItems, Each(valores, FiltroFamiliaAtributoDataCall)).value
  {
    EachComplete(items, pageItems, valores, FiltroFamiliaAtributoDataCall);
    forall u, v | u in valores && ConvertToItem(v) in items && u.nomeFamilia == v.nomeFamilia && u.nomeAtributo == v.nomeAtributo && u.dataInicioVigencia == v.dataInicioVigencia
      ensures Truncated(v) in Answers(items, pageItems, Each(valores, FiltroFamiliaAtributoDataCall)).value
    {
      var i :| 0 <= i < |valores| && valores[i] == u;
      assert Picks(FiltroFamiliaAtributoDataCall(valores[i]), v);
    }
  }

  /** GetFiltroFamiliaAtributo collects every stored value sharing family and attribute with an input. */
  lemma GetFiltroFamiliaAtributoComplete(items: seq<Item>, pageItems: nat, valores: seq<ValorDynamoDB>)
    requires |items| <= pageItems
    requires Answers(items, pageItems, Each(valores, FiltroFamiliaAtributoCall)).Ok?
    ensures forall u, v :: u in valores && ConvertToItem(v) in items && u.nomeFamilia == v.nomeFamilia && u.nomeAtributo == v.nomeAtributo ==>
      Truncated(v) in Answers(items, pageItems, Each(valores, FiltroFamiliaAtributoCall)).value
  {
    EachComplete(items, pageItems, valores, FiltroFamiliaAtributoCall);
    forall u, v | u in valores && ConvertToItem(v) in items && u.nomeFamilia == v.nomeFamilia && u.nomeAtributo == v.nomeAtributo
      ensures Truncated(v) in Answers(items, pageItems, Each(valores, FiltroFamiliaAtributoCall)).value
    {
      var i :| 0 <= i < |valores| && valores[i] == u;
      assert Picks(FiltroFamiliaAtributoCall(valores[i]), v);
    }
  }

  /** GetFiltoSerieData collects every stored value sharing its primary key with an input. */
  lemma GetFiltoSerieDataComplete(items: seq<Item>, pageItems: nat, valores: seq<ValorDynamoDB>)
    requires |items| <= pageItems
    requires Answers(items, pageItems, Each(valores, FiltoSerieDataCall)).Ok?
    ensures forall u, v :: u in valores && ConvertToItem(v) in items && SameEntry(u, v) ==>
      Truncated(v) in Answers(items, pageItems, Each(valores, FiltoSerieDataCall)).value
  {
    EachComplete(items, pageItems, valores, FiltoSerieDataCall);
    forall u, v | u in valores && ConvertToItem(v) in items && SameEntry(u, v)
      ensures Truncated(v) in Answers(items, pageItems, Each(valores, FiltoSerieDataCall)).value
    {
      var i :| 0 <= i < |valores| && valores[i] == u;
      assert Picks(FiltoSerieDataCall(valores[i]), v);
    }
  }

  // ---------------------------------------------------------------------------
  // Writing, then looking up

  /** After the values are put (one by one with Insert, or in InsertBatch's
      batches), the lookup loop over them reads each back, in order, to the
      second: the composite key it builds addresses the item written. */
  lemma GetItemDataAfterWrite(t: seq<Item>, pageItems: nat, vs: seq<ValorDynamoDB>)
    requires KeysDistinct(vs, DedupKey)
    ensures Answers(PutAll(t, BatchRequest(vs)), pageItems, Each(vs, KeyCall)) == Ok(Each(vs, Truncated))
  {
    BatchKeysUnique(vs);
    var items := PutAll(t, BatchRequest(vs));
    var calls := Each(vs, KeyCall);
    var expected := Each(vs, Truncated);
    forall i | 0 <= i < |calls| ensures AnswerOf(items, pageItems)(calls[i]) == Ok([expected[i]]) {
      var v := vs[i];
      KeyItemAfterPutAll(t, vs, i);
      AnswerByKey(items, pageItems, v.nomeSerie, SortKey(v.nomeAtributo, v.dataInicioVigencia));
    }
    FlatMapResultSingletons(calls, AnswerOf(items, pageItems), expected);
  }

  lemma AnswerByKey(items: seq<Item>, pageItems: nat, s: string, k: string)
    ensures KeyItem(items, s, k).Ok? ==> Answer(items, pageItems, ByKey(s, k)) == Ok([KeyItem(items, s, k).value])
  {
  }

  lemma BatchKeysUnique(vs: seq<ValorDynamoDB>)
    requires KeysDistinct(vs, DedupKey)
    ensures KeysUnique(BatchRequest(vs))
  {
    var batch := BatchRequest(vs);
    BatchRequestProps(vs);
    forall i, j | 0 <= i < j < |batch| ensures KeyOf(batch[i]) != KeyOf(batch[j]) {
      DedupKeyIsPrimaryKey(vs[i], vs[j]);
    }
  }

  lemma KeyItemAfterPutAll(t: seq<Item>, vs: seq<ValorDynamoDB>, i: nat)
    requires KeysUnique(BatchRequest(vs)) && i < |vs|
    ensures KeyItem(PutAll(t, BatchRequest(vs)), vs[i].nomeSerie, SortKey(vs[i].nomeAtributo, vs[i].dataInicioVigencia))
      == Ok(Truncated(vs[i]))
  {
    var batch := BatchRequest(vs);
    PutAllLookup(t, batch, i);
    assert batch[i] == ConvertToItem(vs[i]);
    ConvertRoundTripInvariant(vs[i]);
  }

  /** InsertBatch followed by the lookup loop over the list it returns reads
      every kept value back. */
  lemma InsertBatchThenGetItemData(t: seq<Item>, pageItems: nat, valores: seq<ValorDynamoDB>)
    ensures var kept := DistinctBy(valores, DedupKey);
      Answers(PutAll(t, BatchRequest(kept)), pageItems, Each(kept, KeyCall)) == Ok(Each(kept, Truncated))
  {
    DistinctByProps(valores, DedupKey);
    GetItemDataAfterWrite(t, pageItems, DistinctBy(valores, DedupKey));
  }

  // ---------------------------------------------------------------------------
  // The test-data generator

  /** CriarDados returns one value per family, series, attribute and day:
      qtdFamilia * (qtdSerie * (qtdAtributo * qtdDias)) values (none for a
      non-positive count). */
  lemma DadosSize(fo: Fontes, qtdFamilia: int, qtdSerie: int, qtdAtributo: int, qtdDias: int)
    ensures |Dados(fo, qtdFamilia, qtdSerie, qtdAtributo, qtdDias)|
      == Count(qtdFamilia) * (Count(qtdSerie) * (Count(qtdAtributo) * Count(qtdDias)))
  {
    Grid4Size(Count(qtdFamilia), Count(qtdSerie), Count(qtdAtributo), Count(qtdDias), Gerador(fo));
  }

  /** The value for family i, series j, attribute k and day d sits at position
      ((i * qtdSerie + j) * qtdAtributo + k) * qtdDias + d: it carries the
      family's name and file, the series' name, and is valid for the single
      day d + 1 days before the date read for its attribute. */
  lemma DadosAt(fo: Fontes, qtdFamilia: nat, qtdSerie: nat, qtdAtributo: nat, qtdDias: nat,
                i: nat, j: nat, k: nat, d: nat)
    requires DiasAlcancaveis(fo, qtdFamilia, qtdSerie, qtdAtributo, qtdDias)
    requires i < qtdFamilia && j < qtdSerie && k < qtdAtributo && d < qtdDias
    ensures var p := ((i * qtdSerie + j) * qtdAtributo + k) * qtdDias + d;
      p < |Dados(fo, qtdFamilia, qtdSerie, qtdAtributo, qtdDias)| &&
      GeradoEm(fo, Dados(fo, qtdFamilia, qtdSerie, qtdAtributo, qtdDias)[p], i, j, k, d)
  {
    DadosIndex(fo, qtdFamilia, qtdSerie, qtdAtributo, qtdDias, i, j, k, d);
    assert Alcanca(fo, i, j, k, qtdDias);
    GeradoDates(fo, i, j, k, d);
  }

  /** v is the value for family i, series j, attribute k and day d. */
  predicate GeradoEm(fo: Fontes, v: ValorDynamoDB, i: nat, j: nat, k: nat, d: nat)
  {
    v.nomeFamilia == fo.familia(i) && v.nomeArquivo == Some(fo.arquivo(i)) &&
    v.nomeSerie == fo.serie(i, j) && v.nomeAtributo == fo.produto(i, j, k, d) &&
    v.valorAtivo == fo.valor(i, j, k, d) && v.dataAtualizacao == fo.agora(i, j, k, d) &&
    v.dataFimVigencia == v.dataInicioVigencia &&
    DayNumber(v.dataInicioVigencia) == DayNumber(fo.hoje(i, j, k)) - (d + 1)
  }

  lemma DadosIndex(fo: Fontes, qtdFamilia: nat, qtdSerie: nat, qtdAtributo: nat, qtdDias: nat,
                   i: nat, j: nat, k: nat, d: nat)
    requires i < qtdFamilia && j < qtdSerie && k < qtdAtributo && d < qtdDias
    ensures var p := ((i * qtdSerie + j) * qtdAtributo + k) * qtdDias + d;
      p < |Dados(fo, qtdFamilia, qtdSerie, qtdAtributo, qtdDias)| &&
      Dados(fo, qtdFamilia, qtdSerie, qtdAtributo, qtdDias)[p] == Gerado(fo, i, j, k, d)
  {
    assert Dados(fo, qtdFamilia, qtdSerie, qtdAtributo, qtdDias) == Grid4(qtdFamilia, qtdSerie, qtdAtributo, qtdDias, Gerador(fo));
    Grid4At(qtdFamilia, qtdSerie, qtdAtributo, qtdDias, Gerador(fo), i, j, k, d);
  }

  lemma GeradoDates(fo: Fontes, i: nat, j: nat, k: nat, d: nat)
    requires d < DayNumber(fo.hoje(i, j, k))
    ensures GeradoEm(fo, Gerado(fo, i, j, k, d), i, j, k, d)
  {
    VigenciaNumber(fo.hoje(i, j, k), d + 1);
  }

  /** Every generated value is valid for one day before the date read for its
      attribute, and carries the file drawn for the family it names. */
  lemma DadosMembers(fo: Fontes, qtdFamilia: int, qtdSerie: int, qtdAtributo: int, qtdDias: int)
    requires DiasAlcancaveis(fo, qtdFamilia, qtdSerie, qtdAtributo, qtdDias)
    ensures forall v :: v in Dados(fo, qtdFamilia, qtdSerie, qtdAtributo, qtdDias) ==>
      v.dataFimVigencia == v.dataInicioVigencia &&
      exists i: nat, j: nat, k: nat :: i < qtdFamilia && j < qtdSerie && k < qtdAtributo &&
        v.nomeFamilia == fo.familia(i) && v.nomeArquivo == Some(fo.arquivo(i)) &&
        v.nomeSerie == fo.serie(i, j) && DayNumber(v.dataInicioVigencia) < DayNumber(fo.hoje(i, j, k))
  {
    var nf, ns, na, nd := Count(qtdFamilia), Count(qtdSerie), Count(qtdAtributo), Count(qtdDias);
    Grid4Members(nf, ns, na, nd, Gerador(fo));
    forall v | v in Dados(fo, qtdFamilia, qtdSerie, qtdAtributo, qtdDias)
      ensures v.dataFimVigencia == v.dataInicioVigencia &&
        exists i: nat, j: nat, k: nat :: i < qtdFamilia && j < qtdSerie && k < qtdAtributo &&
          v.nomeFamilia == fo.familia(i) && v.nomeArquivo == Some(fo.arquivo(i)) &&
          v.nomeSerie == fo.serie(i, j) && DayNumber(v.dataInicioVigencia) < DayNumber(fo.hoje(i, j, k))
    {
      var i: nat, j: nat, k: nat, d: nat :| i < nf && j < ns && k < na && d < nd && v == Gerador(fo)(i, j, k, d);
      assert v == Gerado(fo, i, j, k, d) && Alcanca(fo, i, j, k, qtdDias);
      GeradoDates(fo, i, j, k, d);
    }
  }
}
