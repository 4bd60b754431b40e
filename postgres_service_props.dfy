/** What the read loops of BenchmarkPostgresService answer with: every row
    collected is a row of the "Valor" table admitted by one of the loop's
    calls, and every table row a call's filter admits is collected; the point
    lookup loop collects at most one row per aggregate. Then what CriarDados
    generates. */
module PostgresServiceProps {
  import opened Wrappers
  import opened Dates
  import opened Sequences
  import opened Models
  import opened Strings
  import opened PostgresFilters
  import opened PostgresRepository
  import opened PostgresService

  // ---------------------------------------------------------------------------
  // Insert: the reference tables

  /** After Insert, each reference table keeps the rows stored before, and
      every new file, family, series or attribute name holds the entity of the
      first aggregate carrying that name. */
  lemma InsertReferenceTables(vs: seq<AggregateValorPostgres>, arquivos: map<string, Arquivo>,
                              familias: map<string, Familia>, series: map<string, Serie>,
                              atributos: map<string, Atributo>)
    ensures AddsFirstOccurrences(arquivos, InsertAllIfAbsent(arquivos, ListaArquivos(vs), ArquivoKey),
                                 Each(vs, ArquivoOf), ArquivoKey)
    ensures AddsFirstOccurrences(familias, InsertAllIfAbsent(familias, ListaFamilias(vs), FamiliaKey),
                                 Each(vs, FamiliaOf), FamiliaKey)
    ensures AddsFirstOccurrences(series, InsertAllIfAbsent(series, ListaSeries(vs), SerieKey),
                                 Each(vs, SerieOf), SerieKey)
    ensures AddsFirstOccurrences(atributos, InsertAllIfAbsent(atributos, ListaAtributos(vs), AtributoKey),
                                 Each(vs, AtributoOf), AtributoKey)
  {
    InsertDistinctSpec(arquivos, Each(vs, ArquivoOf), ArquivoKey);
    InsertDistinctSpec(familias, Each(vs, FamiliaOf), FamiliaKey);
    InsertDistinctSpec(series, Each(vs, SerieOf), SerieKey);
    InsertDistinctSpec(atributos, Each(vs, AtributoOf), AtributoKey);
  }

  // ---------------------------------------------------------------------------
  // One call, and the three loop shapes

  /** The rows a call admits: those at the lookup's key, or those its WHERE clause keeps. */
  predicate Admits(c: Consulta, v: ValorPostgres)
  {
    match c
    case PorChave(s, a, d) => AtKey(v, s, a, d)
    case Filtrada(f) => Satisfies(v, f)
  }

  /** A call answers only table rows it admits; a filtered call answers every
      one of them; a lookup answers one row exactly when some row is at its key. */
  lemma AnswerSpec(rows: seq<ValorPostgres>, c: Consulta)
    ensures forall v :: v in Answer(rows, c) ==> v in rows && Admits(c, v)
    ensures c.Filtrada? ==> forall v :: v in rows && Admits(c, v) ==> v in Answer(rows, c)
    ensures c.PorChave? ==> (|Answer(rows, c)| <= 1
      && (|Answer(rows, c)| == 1 <==> exists i :: 0 <= i < |rows| && Admits(c, rows[i])))
  {
    match c
    case PorChave(s, a, d) =>
    case Filtrada(f) => SelectedSpec(rows, f);
  }

  /** A loop collects exactly the rows its calls answer. */
  lemma AnswersMembers(rows: seq<ValorPostgres>, calls: seq<Consulta>)
    ensures forall v :: v in Answers(rows, calls) <==> exists i :: 0 <= i < |calls| && v in Answer(rows, calls[i])
  {
    FlattenMembers(Each(calls, AnswerOf(rows)));
  }

  /** Every row a loop collects is a table row admitted by one of its calls. */
  lemma AnswersSound(rows: seq<ValorPostgres>, calls: seq<Consulta>)
    ensures forall v :: v in Answers(rows, calls) ==> v in rows && exists c :: c in calls && Admits(c, v)
  {
    AnswersMembers(rows, calls);
    forall v | v in Answers(rows, calls) ensures v in rows && exists c :: c in calls && Admits(c, v) {
      var i :| 0 <= i < |calls| && v in Answer(rows, calls[i]);
      AnswerSpec(rows, calls[i]);
    }
  }

  /** A filtered call of a loop contributes every table row it admits. */
  lemma AnswersComplete(rows: seq<ValorPostgres>, calls: seq<Consulta>, c: Consulta, v: ValorPostgres)
    requires c in calls && c.Filtrada? && v in rows && Admits(c, v)
    ensures v in Answers(rows, calls)
  {
    AnswersMembers(rows, calls);
    AnswerSpec(rows, c);
    var i :| 0 <= i < |calls| && calls[i] == c;
  }

  /** A name argument the filter keeps is matched; a blank one is dropped. */
  predicate NameMatches(arg: string, stored: string)
  {
    IsNullOrWhiteSpace(Some(arg)) || stored == arg
  }

  // ---------------------------------------------------------------------------
  // GetSerieItemSerieAtributoData

  /** The lookup of an aggregate finds a row. */
  predicate Found(rows: seq<ValorPostgres>, x: AggregateValorPostgres)
  {
    FindValor(rows, x.valor.nomeSerie, x.valor.nomeAtributo, x.valor.dataInicioVigencia).Some?
  }

  /** The lookup loop collects at most one row per aggregate, and one for
      every aggregate exactly when every aggregate's lookup finds a row. */
  lemma {:induction false} GetSerieItemSerieAtributoDataCount(rows: seq<ValorPostgres>, vs: seq<AggregateValorPostgres>)
    ensures |Answers(rows, Each(vs, ChaveCall))| <= |vs|
    ensures |Answers(rows, Each(vs, ChaveCall))| == |vs| <==> forall i :: 0 <= i < |vs| ==> Found(rows, vs[i])
    decreases |vs|
  {
    if |vs| > 0 {
      var n := |vs| - 1;
      var init := vs[..n];
      var calls := Each(vs, ChaveCall);
      GetSerieItemSerieAtributoDataCount(rows, init);
      AnswersSnoc(rows, calls, n);
      assert calls[..n] == Each(init, ChaveCall);
      assert calls[..n + 1] == calls;
      var last := Answer(rows, calls[n]);
      assert |last| == (if Found(rows, vs[n]) then 1 else 0);
      if forall i :: 0 <= i < |vs| ==> Found(rows, vs[i]) {
        assert forall i :: 0 <= i < |init| ==> Found(rows, init[i]) by {
          forall i | 0 <= i < |init| ensures Found(rows, init[i]) { assert init[i] == vs[i]; }
        }
      }
      if |Answers(rows, calls)| == |vs| {
        forall i | 0 <= i < |vs| ensures Found(rows, vs[i]) {
          if i < n { assert init[i] == vs[i]; }
        }
      }
    }
  }

  /** Every row the lookup loop collects is a table row at the series,
      attribute and start date of one of the aggregates. */
  lemma GetSerieItemSerieAtributoDataSound(rows: seq<ValorPostgres>, vs: seq<AggregateValorPostgres>)
    ensures forall v :: v in Answers(rows, Each(vs, ChaveCall)) ==>
      v in rows && exists x :: x in vs && AtKey(v, x.valor.nomeSerie, x.valor.nomeAtributo, x.valor.dataInicioVigencia)
  {
    var calls := Each(vs, ChaveCall);
    AnswersSound(rows, calls);
    forall v | v in Answers(rows, calls)
      ensures exists x :: x in vs && AtKey(v, x.valor.nomeSerie, x.valor.nomeAtributo, x.valor.dataInicioVigencia)
    {
      var c :| c in calls && Admits(c, v);
      var i :| 0 <= i < |calls| && calls[i] == c;
      assert vs[i] in vs;
    }
  }

  // ---------------------------------------------------------------------------
  // The filtered loops over one aggregate each

  /** GetSerieAtributoData collects exactly the table rows at the start date
      of some aggregate whose series and attribute match that aggregate's
      (a blank name is not compared). */
  lemma GetSerieAtributoDataSpec(rows: seq<ValorPostgres>, vs: seq<AggregateValorPostgres>)
    ensures forall v :: v in Answers(rows, Each(vs, SerieAtributoDataCall)) <==>
      v in rows && exists x :: (x in vs && v.dataInicioVigencia == x.valor.dataInicioVigencia
        && NameMatches(x.valor.nomeSerie, v.nomeSerie) && NameMatches(x.valor.nomeAtributo, v.nomeAtributo))
  {
    var calls := Each(vs, SerieAtributoDataCall);
    AnswersSound(rows, calls);
    forall v | v in Answers(rows, calls)
      ensures exists x :: (x in vs && v.dataInicioVigencia == x.valor.dataInicioVigencia
        && NameMatches(x.valor.nomeSerie, v.nomeSerie) && NameMatches(x.valor.nomeAtributo, v.nomeAtributo))
    {
      var c :| c in calls && Admits(c, v);
      var i :| 0 <= i < |calls| && calls[i] == c;
      assert vs[i] in vs;
    }
    forall v, x | v in rows && x in vs && v.dataInicioVigencia == x.valor.dataInicioVigencia
        && NameMatches(x.valor.nomeSerie, v.nomeSerie) && NameMatches(x.valor.nomeAtributo, v.nomeAtributo)
      ensures v in Answers(rows, calls)
    {
      var i :| 0 <= i < |vs| && vs[i] == x;
      AnswersComplete(rows, calls, calls[i], v);
    }
  }

  /** GetFamiliaSerieAtributoData collects exactly the table rows at the
      start date of some aggregate whose family, series and attribute match
      that aggregate's (a blank name is not compared). */
  lemma GetFamiliaSerieAtributoDataSpec(rows: seq<ValorPostgres>, vs: seq<AggregateValorPostgres>)
    ensures forall v :: v in Answers(rows, Each(vs, FamiliaSerieAtributoDataCall)) <==>
      v in rows && exists x :: (x in vs && v.dataInicioVigencia == x.valor.dataInicioVigencia
        && NameMatches(x.valor.nomeFamilia, v.nomeFamilia) && NameMatches(x.valor.nomeSerie, v.nomeSerie)
        && NameMatches(x.valor.nomeAtributo, v.nomeAtributo))
  {
    var calls := Each(vs, FamiliaSerieAtributoDataCall);
    AnswersSound(rows, calls);
    forall v | v in Answers(rows, calls)
      ensures exists x :: (x in vs && v.dataInicioVigencia == x.valor.dataInicioVigencia
        && NameMatches(x.valor.nomeFamilia, v.nomeFamilia) && NameMatches(x.valor.nomeSerie, v.nomeSerie)
        && NameMatches(x.valor.nomeAtributo, v.nomeAtributo))
    {
      var c :| c in calls && Admits(c, v);
      var i :| 0 <= i < |calls| && calls[i] == c;
      assert vs[i] in vs;
    }
    forall v, x | v in rows && x in vs && v.dataInicioVigencia == x.valor.dataInicioVigencia
        && NameMatches(x.valor.nomeFamilia, v.nomeFamilia) && NameMatches(x.valor.nomeSerie, v.nomeSerie)
        && NameMatches(x.valor.nomeAtributo, v.nomeAtributo)
      ensures v in Answers(rows, calls)
    {
      var i :| 0 <= i < |vs| && vs[i] == x;
      AnswersComplete(rows, calls, calls[i], v);
    }
  }

  // ---------------------------------------------------------------------------
  // The filtered loops over the distinct names and dates

  /** Each row a double loop collects is admitted by the call on some pair. */
  lemma CrossSound<A, B>(rows: seq<ValorPostgres>, xs: seq<A>, ys: seq<B>, f: (A, B) -> Consulta)
    ensures forall v :: v in Answers(rows, Cross(xs, ys, f)) ==>
      v in rows && exists x, y :: x in xs && y in ys && Admits(f(x, y), v)
  {
    var calls := Cross(xs, ys, f);
    AnswersSound(rows, calls);
    CrossMembers(xs, ys, f);
    forall v | v in Answers(rows, calls) ensures exists x, y :: x in xs && y in ys && Admits(f(x, y), v) {
      var c :| c in calls && Admits(c, v);
      var i, j :| 0 <= i < |xs| && 0 <= j < |ys| && c == f(xs[i], ys[j]);
      assert xs[i] in xs && ys[j] in ys;
    }
  }

  /** Each row a triple loop collects is admitted by the call on some triple. */
  lemma Cross3Sound<A, B, D>(rows: seq<ValorPostgres>, xs: seq<A>, ys: seq<B>, zs: seq<D>, f: (A, B, D) -> Consulta)
    ensures forall v :: v in Answers(rows, Cross3(xs, ys, zs, f)) ==>
      v in rows && exists x, y, z :: x in xs && y in ys && z in zs && Admits(f(x, y, z), v)
  {
    var calls := Cross3(xs, ys, zs, f);
    AnswersSound(rows, calls);
    Cross3Members(xs, ys, zs, f);
    forall v | v in Answers(rows, calls) ensures exists x, y, z :: x in xs && y in ys && z in zs && Admits(f(x, y, z), v) {
      var c :| c in calls && Admits(c, v);
      var i, j, k :| 0 <= i < |xs| && 0 <= j < |ys| && 0 <= k < |zs| && c == f(xs[i], ys[j], zs[k]);
      assert xs[i] in xs && ys[j] in ys && zs[k] in zs;
    }
  }

  /** A row admitted by the call on a pair of listed values is collected. */
  lemma CrossComplete<A, B>(rows: seq<ValorPostgres>, xs: seq<A>, ys: seq<B>, f: (A, B) -> Consulta,
                            x: A, y: B, v: ValorPostgres)
    requires x in xs && y in ys && f(x, y).Filtrada? && v in rows && Admits(f(x, y), v)
    ensures v in Answers(rows, Cross(xs, ys, f))
  {
    var i :| 0 <= i < |xs| && xs[i] == x;
    var j :| 0 <= j < |ys| && ys[j] == y;
    CrossContains(xs, ys, f, i, j);
    AnswersComplete(rows, Cross(xs, ys, f), f(x, y), v);
  }

  lemma Cross3Complete<A, B, D>(rows: seq<ValorPostgres>, xs: seq<A>, ys: seq<B>, zs: seq<D>, f: (A, B, D) -> Consulta,
                                x: A, y: B, z: D, v: ValorPostgres)
    requires x in xs && y in ys && z in zs && f(x, y, z).Filtrada? && v in rows && Admits(f(x, y, z), v)
    ensures v in Answers(rows, Cross3(xs, ys, zs, f))
  {
    var i :| 0 <= i < |xs| && xs[i] == x;
    var j :| 0 <= j < |ys| && ys[j] == y;
    var k :| 0 <= k < |zs| && zs[k] == z;
    Cross3Contains(xs, ys, zs, f, i, j, k);
    AnswersComplete(rows, Cross3(xs, ys, zs, f), f(x, y, z), v);
  }

  /** GetSerieData: every row collected is a table row at a listed start
      date whose series matches a listed one (a blank name is not compared),
      and every table row of a listed series and start date is collected. */
  lemma GetSerieDataSpec(rows: seq<ValorPostgres>, vs: seq<AggregateValorPostgres>)
    ensures forall v :: v in Answers(rows, Cross(ListaSerie(vs), ListaData(vs), SerieDataCall)) ==>
      v in rows && v.dataInicioVigencia in ListaData(vs) && exists s :: s in ListaSerie(vs) && NameMatches(s, v.nomeSerie)
    ensures forall v :: v in rows && v.nomeSerie in ListaSerie(vs) && v.dataInicioVigencia in ListaData(vs) ==>
      v in Answers(rows, Cross(ListaSerie(vs), ListaData(vs), SerieDataCall))
  {
    var xs, ys := ListaSerie(vs), ListaData(vs);
    CrossSound(rows, xs, ys, SerieDataCall);
    forall v | v in rows && v.nomeSerie in xs && v.dataInicioVigencia in ys
      ensures v in Answers(rows, Cross(xs, ys, SerieDataCall))
    {
      CrossComplete(rows, xs, ys, SerieDataCall, v.nomeSerie, v.dataInicioVigencia, v);
    }
  }

  /** GetAtributoData: the same for attributes and start dates. */
  lemma GetAtributoDataSpec(rows: seq<ValorPostgres>, vs: seq<AggregateValorPostgres>)
    ensures forall v :: v in Answers(rows, Cross(ListaAtributo(vs), ListaData(vs), AtributoDataCall)) ==>
      v in rows && v.dataInicioVigencia in ListaData(vs) && exists a :: a in ListaAtributo(vs) && NameMatches(a, v.nomeAtributo)
    ensures forall v :: v in rows && v.nomeAtributo in ListaAtributo(vs) && v.dataInicioVigencia in ListaData(vs) ==>
      v in Answers(rows, Cross(ListaAtributo(vs), ListaData(vs), AtributoDataCall))
  {
    var xs, ys := ListaAtributo(vs), ListaData(vs);
    CrossSound(rows, xs, ys, AtributoDataCall);
    forall v | v in rows && v.nomeAtributo in xs && v.dataInicioVigencia in ys
      ensures v in Answers(rows, Cross(xs, ys, AtributoDataCall))
    {
      CrossComplete(rows, xs, ys, AtributoDataCall, v.nomeAtributo, v.dataInicioVigencia, v);
    }
  }

  /** GetFamiliaData: the same for families and start dates. */
  lemma GetFamiliaDataSpec(rows: seq<ValorPostgres>, vs: seq<AggregateValorPostgres>)
    ensures forall v :: v in Answers(rows, Cross(ListaFamilia(vs), ListaData(vs), FamiliaDataCall)) ==>
      v in rows && v.dataInicioVigencia in ListaData(vs) && exists f :: f in ListaFamilia(vs) && NameMatches(f, v.nomeFamilia)
    ensures forall v :: v in rows && v.nomeFamilia in ListaFamilia(vs) && v.dataInicioVigencia in ListaData(vs) ==>
      v in Answers(rows, Cross(ListaFamilia(vs), ListaData(vs), FamiliaDataCall))
  {
    var xs, ys := ListaFamilia(vs), ListaData(vs);
    CrossSound(rows, xs, ys, FamiliaDataCall);
    forall v | v in rows && v.nomeFamilia in xs && v.dataInicioVigencia in ys
      ensures v in Answers(rows, Cross(xs, ys, FamiliaDataCall))
    {
      CrossComplete(rows, xs, ys, FamiliaDataCall, v.nomeFamilia, v.dataInicioVigencia, v);
    }
  }

  /** GetFamiliaAtributoData: the same for families, attributes and start dates. */
  lemma GetFamiliaAtributoDataSpec(rows: seq<ValorPostgres>, vs: seq<AggregateValorPostgres>)
    ensures forall v :: v in Answers(rows, Cross3(ListaFamilia(vs), ListaAtributo(vs), ListaData(vs), FamiliaAtributoDataCall)) ==>
      v in rows && v.dataInicioVigencia in ListaData(vs)
      && (exists f :: f in ListaFamilia(vs) && NameMatches(f, v.nomeFamilia))
      && (exists a :: a in ListaAtributo(vs) && NameMatches(a, v.nomeAtributo))
    ensures forall v :: (v in rows && v.nomeFamilia in ListaFamilia(vs) && v.nomeAtributo in ListaAtributo(vs)
      && v.dataInicioVigencia in ListaData(vs)) ==>
      v in Answers(rows, Cross3(ListaFamilia(vs), ListaAtributo(vs), ListaData(vs), FamiliaAtributoDataCall))
  {
    var xs, ys, zs := ListaFamilia(vs), ListaAtributo(vs), ListaData(vs);
    Cross3Sound(rows, xs, ys, zs, FamiliaAtributoDataCall);
    forall v | v in Answers(rows, Cross3(xs, ys, zs, FamiliaAtributoDataCall))
      ensures (exists f :: f in xs && NameMatches(f, v.nomeFamilia)) && (exists a :: a in ys && NameMatches(a, v.nomeAtributo))
    {
      var f, a, d :| f in xs && a in ys && d in zs && Admits(FamiliaAtributoDataCall(f, a, d), v);
    }
    forall v | v in rows && v.nomeFamilia in xs && v.nomeAtributo in ys && v.dataInicioVigencia in zs
      ensures v in Answers(rows, Cross3(xs, ys, zs, FamiliaAtributoDataCall))
    {
      Cross3Complete(rows, xs, ys, zs, FamiliaAtributoDataCall, v.nomeFamilia, v.nomeAtributo, v.dataInicioVigencia, v);
    }
  }

  /** The double loops make one call per pair of listed values, the triple
      loop one per triple, the other loops one per aggregate. */
  lemma ReadLoopCalls(vs: seq<AggregateValorPostgres>)
    ensures |Cross(ListaSerie(vs), ListaData(vs), SerieDataCall)| == |ListaSerie(vs)| * |ListaData(vs)|
    ensures |Cross(ListaAtributo(vs), ListaData(vs), AtributoDataCall)| == |ListaAtributo(vs)| * |ListaData(vs)|
    ensures |Cross(ListaFamilia(vs), ListaData(vs), FamiliaDataCall)| == |ListaFamilia(vs)| * |ListaData(vs)|
    ensures |Cross3(ListaFamilia(vs), ListaAtributo(vs), ListaData(vs), FamiliaAtributoDataCall)|
      == |ListaFamilia(vs)| * (|ListaAtributo(vs)| * |ListaData(vs)|)
  {
    CrossLength(ListaSerie(vs), ListaData(vs), SerieDataCall);
    CrossLength(ListaAtributo(vs), ListaData(vs), AtributoDataCall);
    CrossLength(ListaFamilia(vs), ListaData(vs), FamiliaDataCall);
    Cross3Length(ListaFamilia(vs), ListaAtributo(vs), ListaData(vs), FamiliaAtributoDataCall);
  }

  // ---------------------------------------------------------------------------
  // CriarDados

  /** x is the aggregate for family i, series j, attribute k and day d: it
      holds the entities built for them, its value names those entities, and
      it is valid for the single day d + 1 days before the date read for its
      attribute. */
  predicate GeradoEm(fo: Fontes, x: AggregateValorPostgres, i: nat, j: nat, k: nat, d: nat)
  {
    x.familia == FamiliaGerada(fo, i) && x.arquivo == ArquivoGerado(fo, i)
    && x.serie == SerieGerada(fo, i, j) && x.atributo == AtributoGerado(fo, i, j, k)
    && Coerente(x)
    && x.valor.valorAtivo == fo.valor(i, j, k, d) && x.valor.dataAtualizacao == fo.agora(i, j, k, d)
    && DayNumber(x.valor.dataInicioVigencia) == DayNumber(fo.hoje(i, j, k)) - (d + 1)
  }

  /** The value of an aggregate names the aggregate's own entities, each
      entity's internal name is its name, and the value is valid for one day. */
  predicate Coerente(x: AggregateValorPostgres)
  {
    x.valor.nomeFamilia == x.familia.nomeFamilia && x.valor.nomeArquivo == x.arquivo.nomeArquivo
    && x.valor.nomeSerie == x.serie.nomeSerie && x.valor.nomeAtributo == x.atributo.nomeAtributo
    && x.familia.nomeInternoFamilia == x.familia.nomeFamilia && x.arquivo.nomeInternoArquivo == x.arquivo.nomeArquivo
    && x.serie.nomeInternoSerie == x.serie.nomeSerie && x.atributo.nomeInternoAtributo == x.atributo.nomeAtributo
    && x.valor.dataFimVigencia == x.valor.dataInicioVigencia
  }

  /** CriarDados returns one aggregate per family, series, attribute and day:
      qtdFamilia * (qtdSerie * (qtdAtributo * qtdDias)) of them (none for a
      non-positive count). */
  lemma DadosSize(fo: Fontes, qtdFamilia: int, qtdSerie: int, qtdAtributo: int, qtdDias: int)
    ensures |Dados(fo, qtdFamilia, qtdSerie, qtdAtributo, qtdDias)|
      == Count(qtdFamilia) * (Count(qtdSerie) * (Count(qtdAtributo) * Count(qtdDias)))
  {
    Grid4Size(Count(qtdFamilia), Count(qtdSerie), Count(qtdAtributo), Count(qtdDias), Gerador(fo));
  }

  /** The aggregate for family i, series j, attribute k and day d sits at
      position ((i * qtdSerie + j) * qtdAtributo + k) * qtdDias + d. */
  lemma DadosAt(fo: Fontes, qtdFamilia: nat, qtdSerie: nat, qtdAtributo: nat, qtdDias: nat,
                i: nat, j: nat, k: nat, d: nat)
    requires DiasAlcancaveis(fo, qtdFamilia, qtdSerie, qtdAtributo, qtdDias)
    requires i < qtdFamilia && j < qtdSerie && k < qtdAtributo && d < qtdDias
    ensures var p := ((i * qtdSerie + j) * qtdAtributo + k) * qtdDias + d;
      p < |Dados(fo, qtdFamilia, qtdSerie, qtdAtributo, qtdDias)| &&
      GeradoEm(fo, Dados(fo, qtdFamilia, qtdSerie, qtdAtributo, qtdDias)[p], i, j, k, d)
  {
    assert Dados(fo, qtdFamilia, qtdSerie, qtdAtributo, qtdDias) == Grid4(qtdFamilia, qtdSerie, qtdAtributo, qtdDias, Gerador(fo));
    Grid4At(qtdFamilia, qtdSerie, qtdAtributo, qtdDias, Gerador(fo), i, j, k, d);
    assert Alcanca(fo, i, j, k, qtdDias);
    GeradoDates(fo, i, j, k, d);
  }

  lemma GeradoDates(fo: Fontes, i: nat, j: nat, k: nat, d: nat)
    requires d < DayNumber(fo.hoje(i, j, k))
    ensures GeradoEm(fo, Gerado(fo, i, j, k, d), i, j, k, d)
  {
    VigenciaNumber(fo.hoje(i, j, k), d + 1);
  }

  /** Every generated aggregate is coherent, is valid for a day before the
      date read for its attribute, and carries the file drawn for its family. */
  lemma DadosMembers(fo: Fontes, qtdFamilia: int, qtdSerie: int, qtdAtributo: int, qtdDias: int)
    requires DiasAlcancaveis(fo, qtdFamilia, qtdSerie, qtdAtributo, qtdDias)
    ensures forall x :: x in Dados(fo, qtdFamilia, qtdSerie, qtdAtributo, qtdDias) ==>
      Coerente(x) &&
      exists i: nat, j: nat, k: nat :: i < qtdFamilia && j < qtdSerie && k < qtdAtributo &&
        x.familia == FamiliaGerada(fo, i) && x.arquivo == ArquivoGerado(fo, i) &&
        x.serie == SerieGerada(fo, i, j) && DayNumber(x.valor.dataInicioVigencia) < DayNumber(fo.hoje(i, j, k))
  {
    var nf, ns, na, nd := Count(qtdFamilia), Count(qtdSerie), Count(qtdAtributo), Count(qtdDias);
    Grid4Members(nf, ns, na, nd, Gerador(fo));
    forall x | x in Dados(fo, qtdFamilia, qtdSerie, qtdAtributo, qtdDias)
      ensures Coerente(x) &&
        exists i: nat, j: nat, k: nat :: i < qtdFamilia && j < qtdSerie && k < qtdAtributo &&
          x.familia == FamiliaGerada(fo, i) && x.arquivo == ArquivoGerado(fo, i) &&
          x.serie == SerieGerada(fo, i, j) && DayNumber(x.valor.dataInicioVigencia) < DayNumber(fo.hoje(i, j, k))
    {
      var i: nat, j: nat, k: nat, d: nat :| i < nf && j < ns && k < na && d < nd && x == Gerador(fo)(i, j, k, d);
      assert x == Gerado(fo, i, j, k, d) && Alcanca(fo, i, j, k, qtdDias);
      GeradoDates(fo, i, j, k, d);
    }
  }
}
